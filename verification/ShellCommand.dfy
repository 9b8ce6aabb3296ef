/** Install commands: quoting an argument, building the command line, and reading it back by the token
    and quoting rules of the POSIX Shell Command Language (sections 2.2.1, 2.2.2 and 2.3). */
module ShellCommand {
  import opened Text

  // ---------------------------------------------------------------- the shell's reading

  datatype Token = Word(text: string) | Pipe

  /** Characters that stand for themselves outside quotes. Any other unquoted character makes this
      reader give up, so what it does read needs no rule beyond the ones modelled here. */
  predicate IsPlain(c: char) {
    'a' <= c <= 'z' || 'A' <= c <= 'Z' || '0' <= c <= '9' || c == '-' || c == '_' || c == '.' || c == '/' || c == ':'
  }

  function Prepend(tokens: seq<Token>, rest: Option<seq<Token>>): Option<seq<Token>> {
    if rest.None? then None else Some(tokens + rest.value)
  }

  function EndWord(word: Option<string>): seq<Token> {
    if word.Some? then [Word(word.value)] else []
  }

  /** Reads tokens; `word` is the word in progress, if any. */
  function Lex(s: string, word: Option<string>): Option<seq<Token>>
    decreases |s|
  {
    var soFar := OrEmpty(word);
    if s == [] then Some(EndWord(word))
    else if s[0] == '\'' then LexQuoted(s[1..], soFar)
    else if s[0] == '\\' then
      if |s| == 1 then None
      else if s[1] == '\n' then Lex(s[2..], word)
      else Lex(s[2..], Some(soFar + [s[1]]))
    else if s[0] == ' ' then Prepend(EndWord(word), Lex(s[1..], None))
    else if s[0] == '|' then
      if |s| > 1 && s[1] == '|' then None else Prepend(EndWord(word) + [Pipe], Lex(s[1..], None))
    else if IsPlain(s[0]) then Lex(s[1..], Some(soFar + [s[0]]))
    else None
  }

  /** Inside single quotes every character up to the closing quote stands for itself. */
  function LexQuoted(s: string, word: string): Option<seq<Token>>
    decreases |s|
  {
    if s == [] then None
    else if s[0] == '\'' then Lex(s[1..], Some(word))
    else LexQuoted(s[1..], word + [s[0]])
  }

  function OrEmpty(word: Option<string>): string {
    if word.Some? then word.value else []
  }

  /** The commands of a pipeline, each with its arguments. */
  function Commands(tokens: seq<Token>): (r: seq<seq<string>>)
    ensures |r| >= 1
  {
    if tokens == [] then [[]]
    else
      var before := Commands(tokens[..|tokens| - 1]);
      var last := |before| - 1;
      match tokens[|tokens| - 1]
      case Word(text) => before[..last] + [before[last] + [text]]
      case Pipe => before + [[]]
  }

  function ShellReads(s: string): Option<seq<seq<string>>> {
    match Lex(s, None)
    case None => None
    case Some(tokens) => Some(Commands(tokens))
  }

  // ---------------------------------------------------------------- quoting

  function QuotedBody(value: string): string {
    if value == [] then []
    else QuotedBody(value[..|value| - 1]) + (if value[|value| - 1] == '\'' then "'\\''" else [value[|value| - 1]])
  }

  function Quoted(value: string): string {
    "'" + QuotedBody(value) + "'"
  }

  method ShellQuote(value: string) returns (quoted: string)
    ensures quoted == Quoted(value)
  {
    quoted := "'";
    for k := 0 to |value|
      invariant quoted == "'" + QuotedBody(value[..k])
    {
      assert value[..k + 1][..k] == value[..k];
      if value[k] == '\'' {
        quoted := quoted + "'\\''";
      } else {
        quoted := quoted + [value[k]];
      }
    }
    assert value[..|value|] == value;
    quoted := quoted + ['\''];
  }

  /** Reading the quoted body inside quotes adds exactly the value to the word. */
  lemma {:induction false} BodyReadsBack(value: string, rest: string, word: string)
    ensures LexQuoted(QuotedBody(value) + rest, word) == LexQuoted(rest, word + value)
  {
    if value == [] {
      assert QuotedBody(value) + rest == rest && word + value == word;
    } else {
      var k := |value| - 1;
      var piece := if value[k] == '\'' then "'\\''" else [value[k]];
      assert QuotedBody(value) + rest == QuotedBody(value[..k]) + (piece + rest);
      BodyReadsBack(value[..k], piece + rest, word);
      assert word + value == (word + value[..k]) + [value[k]];
      PieceReadsBack(value[k], rest, word + value[..k]);
    }
  }

  lemma PieceReadsBack(c: char, rest: string, word: string)
    ensures LexQuoted((if c == '\'' then "'\\''" else [c]) + rest, word) == LexQuoted(rest, word + [c])
  {
    if c == '\'' {
      var s := "'\\''" + rest;
      assert s[1..] == "\\''" + rest;
      var t := s[1..];
      assert t[0] == '\\' && t[1] == '\'' && t[2..] == "'" + rest;
      var u := t[2..];
      assert u[0] == '\'' && u[1..] == rest;
      assert LexQuoted(s, word) == Lex(t, Some(word));
      assert Lex(t, Some(word)) == Lex(u, Some(word + [c]));
      assert Lex(u, Some(word + [c])) == LexQuoted(rest, word + [c]);
    } else {
      assert ([c] + rest)[1..] == rest;
    }
  }

  /** A quoted value reads back as itself, appended to the word it stands in, whatever follows. */
  lemma QuotedReadsBack(value: string, rest: string, word: Option<string>)
    ensures Lex(Quoted(value) + rest, word) == Lex(rest, Some(OrEmpty(word) + value))
  {
    var s := Quoted(value) + rest;
    assert s[1..] == QuotedBody(value) + ("'" + rest);
    BodyReadsBack(value, "'" + rest, OrEmpty(word));
    assert ("'" + rest)[1..] == rest;
  }

  /** Any string, quoted, is one word: that string. */
  lemma QuotedIsOneWord(value: string)
    ensures ShellReads(Quoted(value)) == Some([[value]])
  {
    QuotedReadsBack(value, [], None);
    assert Quoted(value) + [] == Quoted(value) && OrEmpty(None) + value == value;
    assert Lex([], Some(value)) == Some([Word(value)]);
    CommandsOfWords([], [value]);
    var none := Commands([]);
    assert |none| == 1 && none[0] + [value] == [value];
    assert none[..0] + [[value]] == [[value]];
    assert [] + Words([value]) == [Word(value)];
  }

  // ---------------------------------------------------------------- reading a growing command line

  /** The text reads as these tokens, the last of which is a word still open, whatever follows. */
  ghost predicate ReadsTo(text: string, tokens: seq<Token>) {
    && tokens != [] && tokens[|tokens| - 1].Word?
    && forall rest :: Lex(text + rest, None)
                      == Prepend(tokens[..|tokens| - 1], Lex(rest, Some(tokens[|tokens| - 1].text)))
  }

  lemma {:induction false} PlainReadsBack(text: string, rest: string, word: Option<string>)
    requires forall k :: 0 <= k < |text| ==> IsPlain(text[k])
    requires text != [] || word.Some?
    ensures Lex(text + rest, word) == Lex(rest, Some(OrEmpty(word) + text))
  {
    if text == [] {
      assert text + rest == rest && OrEmpty(word) + text == OrEmpty(word);
    } else {
      assert (text + rest)[1..] == text[1..] + rest;
      PlainReadsBack(text[1..], rest, Some(OrEmpty(word) + [text[0]]));
      assert OrEmpty(word) + [text[0]] + text[1..] == OrEmpty(word) + text;
    }
  }

  predicate AllPlain(text: string) {
    text != [] && forall k :: 0 <= k < |text| ==> IsPlain(text[k])
  }

  lemma StartsWith(text: string)
    requires AllPlain(text)
    ensures ReadsTo(text, [Word(text)])
  {
    var tokens := [Word(text)];
    var last := |tokens| - 1;
    assert tokens[..last] == [];
    forall rest ensures Lex(text + rest, None) == Prepend(tokens[..last], Lex(rest, Some(tokens[last].text))) {
      PlainReadsBack(text, rest, None);
      assert OrEmpty(None) + text == text;
      AddNothing(Lex(rest, Some(text)));
    }
  }

  lemma AddNothing(rest: Option<seq<Token>>)
    ensures Prepend([], rest) == rest
  {
    if rest.Some? {
      assert [] + rest.value == rest.value;
    }
  }

  lemma PrependTwice(a: seq<Token>, b: seq<Token>, rest: Option<seq<Token>>)
    ensures Prepend(a, Prepend(b, rest)) == Prepend(a + b, rest)
  {
    if rest.Some? {
      assert a + (b + rest.value) == a + b + rest.value;
    }
  }

  /** The blanks between two words: a space, or a space and a continued line indented by two spaces. */
  predicate IsGap(gap: string) {
    gap == " " || gap == " \\\n  "
  }

  lemma GapEndsWord(gap: string, rest: string, word: string)
    requires IsGap(gap)
    ensures Lex(gap + rest, Some(word)) == Prepend([Word(word)], Lex(rest, None))
  {
    if gap == " " {
      assert (gap + rest)[1..] == rest;
    } else {
      var s := gap + rest;
      var t := s[1..];
      assert t[0] == '\\' && t[1] == '\n';
      var u := t[2..];
      assert u[0] == ' ' && u[1..][0] == ' ' && u[1..][1..] == rest;
      AddNothing(Lex(rest, None));
      AddNothing(Lex(u[1..], None));
      assert Lex(t, None) == Lex(u, None) == Lex(u[1..], None) == Lex(rest, None);
    }
  }

  /** After a gap, a piece that reads as a whole word opens that word. */
  lemma NextWord(text: string, tokens: seq<Token>, gap: string, piece: string, value: string)
    requires ReadsTo(text, tokens) && IsGap(gap)
    requires forall rest :: Lex(piece + rest, None) == Lex(rest, Some(value))
    ensures ReadsTo(text + gap + piece, tokens + [Word(value)])
  {
    hide Lex;
    var more := tokens + [Word(value)];
    var last := |tokens| - 1;
    assert more[..|more| - 1] == tokens;
    forall rest ensures Lex(text + gap + piece + rest, None) == Prepend(tokens, Lex(rest, Some(value))) {
      var after := Lex(rest, Some(value));
      assert text + gap + piece + rest == text + (gap + (piece + rest));
      GapEndsWord(gap, piece + rest, tokens[last].text);
      PrependTwice(tokens[..last], [tokens[last]], after);
      assert tokens[..last] + [tokens[last]] == tokens;
    }
  }

  lemma NextPlain(text: string, tokens: seq<Token>, gap: string, word: string)
    requires ReadsTo(text, tokens) && IsGap(gap) && AllPlain(word)
    ensures ReadsTo(text + gap + word, tokens + [Word(word)])
  {
    hide Lex, ReadsTo;
    forall rest ensures Lex(word + rest, None) == Lex(rest, Some(word)) {
      PlainReadsBack(word, rest, None);
      assert [] + word == word;
    }
    NextWord(text, tokens, gap, word, word);
  }

  lemma NextQuoted(text: string, tokens: seq<Token>, gap: string, value: string)
    requires ReadsTo(text, tokens) && IsGap(gap)
    ensures ReadsTo(text + gap + Quoted(value), tokens + [Word(value)])
  {
    hide Lex, ReadsTo, Quoted;
    forall rest ensures Lex(Quoted(value) + rest, None) == Lex(rest, Some(value)) {
      QuotedReadsBack(value, rest, None);
      assert [] + value == value;
    }
    NextWord(text, tokens, gap, Quoted(value), value);
  }

  lemma NextCommand(text: string, tokens: seq<Token>, word: string)
    requires ReadsTo(text, tokens) && AllPlain(word)
    ensures ReadsTo(text + " | " + word, tokens + [Pipe, Word(word)])
  {
    hide Lex, AllPlain;
    var more := tokens + [Pipe, Word(word)];
    assert more[..|more| - 1] == tokens + [Pipe];
    forall rest ensures Lex(text + " | " + word + rest, None) == Prepend(tokens + [Pipe], Lex(rest, Some(word))) {
      CommandReadsBack(text, tokens, word, rest);
    }
  }

  lemma CommandReadsBack(text: string, tokens: seq<Token>, word: string, rest: string)
    requires ReadsTo(text, tokens) && AllPlain(word)
    ensures Lex(text + " | " + word + rest, None) == Prepend(tokens + [Pipe], Lex(rest, Some(word)))
  {
    hide Lex, Prepend;
    var last := |tokens| - 1;
    var after := Lex(rest, Some(word));
    var tail := "| " + (word + rest);
    PlainReadsBack(word, rest, None);
    assert OrEmpty(None) + word == word;
    PipeOpens(word + rest);
    GapEndsWord(" ", tail, tokens[last].text);
    assert text + " | " + word + rest == text + (" " + tail);
    PrependTwice([tokens[last]], [Pipe], after);
    PrependTwice(tokens[..last], [tokens[last]] + [Pipe], after);
    assert tokens[..last] + ([tokens[last]] + [Pipe]) == tokens + [Pipe];
  }

  lemma PipeOpens(rest: string)
    ensures Lex("| " + rest, None) == Prepend([Pipe], Lex(rest, None))
  {
    var s := "| " + rest;
    assert s[1] == ' ' && s[1..][1..] == rest;
    AddNothing(Lex(rest, None));
    assert Lex(s[1..], None) == Lex(rest, None);
    assert [] + [Pipe] == [Pipe];
  }

  lemma ReadsWhole(text: string, tokens: seq<Token>)
    requires ReadsTo(text, tokens)
    ensures Lex(text, None) == Some(tokens)
  {
    var last := |tokens| - 1;
    assert text + [] == text;
    assert Lex([], Some(tokens[last].text)) == Some([tokens[last]]);
    assert tokens[..last] + [tokens[last]] == tokens;
  }

  // ---------------------------------------------------------------- pipelines

  function Words(args: seq<string>): (r: seq<Token>)
    ensures |r| == |args|
  {
    seq(|args|, k requires 0 <= k < |args| => Word(args[k]))
  }

  lemma {:induction false} CommandsOfWords(tokens: seq<Token>, args: seq<string>)
    ensures
      var before := Commands(tokens);
      Commands(tokens + Words(args)) == before[..|before| - 1] + [before[|before| - 1] + args]
  {
    var before := Commands(tokens);
    if args == [] {
      assert tokens + Words(args) == tokens;
      assert before[|before| - 1] + args == before[|before| - 1];
    } else {
      var k := |args| - 1;
      CommandsOfWords(tokens, args[..k]);
      var all := tokens + Words(args);
      assert all[..|all| - 1] == tokens + Words(args[..k]);
      assert before[|before| - 1] + args[..k] + [args[k]] == before[|before| - 1] + args;
    }
  }

  lemma CommandsOfPipeline(first: seq<string>, second: seq<string>)
    ensures Commands(Words(first) + [Pipe] + Words(second)) == [first, second]
  {
    CommandsOfWords([], first);
    assert [] + Words(first) == Words(first) && [] + first == first;
    var piped := Words(first) + [Pipe];
    assert piped[..|piped| - 1] == Words(first);
    CommandsOfWords(piped, second);
    assert [] + second == second;
  }

  // ---------------------------------------------------------------- the install commands

  datatype Install = Install(
    installUrl: string, bootstrapUrl: string, bootstrapToken: string, enableControlPlane: bool,
    channel: Option<string>, artifactUrl: Option<string>, sha256Url: Option<string>, downloadMode: string)

  function InstallerDownloadModeArg(mode: string): string {
    if mode == "standard_first" then "standard-first" else "github-api-first"
  }

  function OptionArgs(name: string, value: Option<string>): seq<string> {
    if value.Some? then [name, value.value] else []
  }

  function SourceArgs(i: Install): seq<string> {
    OptionArgs("--channel", i.channel) + OptionArgs("--artifact-url", i.artifactUrl) + OptionArgs("--sha256-url", i.sha256Url)
    + ["--download-mode", if i.downloadMode == "standard_first" then "standard-first" else "github-api-first"]
  }

  function EnableArgs(i: Install): seq<string> {
    if i.enableControlPlane then ["--enable-control-plane"] else []
  }

  function BootstrapArgs(i: Install): seq<string> {
    ["-s", "--", "--bootstrap-url", i.bootstrapUrl, "--bootstrap-token", i.bootstrapToken]
  }

  function FetchArgs(i: Install): seq<string> {
    ["curl", "-fsSL", i.installUrl]
  }

  /** The command text so far and the pipeline it reads as. */
  ghost predicate ReadsPipeline(text: string, first: seq<string>, second: seq<string>) {
    second != [] && ReadsTo(text, Words(first) + [Pipe] + Words(second))
  }

  lemma AddArgument(text: string, first: seq<string>, second: seq<string>, gap: string, word: string)
    requires ReadsPipeline(text, first, second) && IsGap(gap)
    ensures ReadsPipeline(text + gap + Quoted(word), first, second + [word])
    ensures AllPlain(word) ==> ReadsPipeline(text + gap + word, first, second + [word])
  {
    hide ReadsTo, AllPlain, Quoted;
    var tokens := Words(first) + [Pipe] + Words(second);
    assert tokens + [Word(word)] == Words(first) + [Pipe] + Words(second + [word]);
    NextQuoted(text, tokens, gap, word);
    if AllPlain(word) {
      NextPlain(text, tokens, gap, word);
    }
  }

  /** push_str(gap + name + " "); push_str(shell_quote(value)). */
  method PushOption(command: string, gap: string, name: string, value: string,
                    ghost first: seq<string>, ghost second: seq<string>)
    returns (longer: string)
    requires ReadsPipeline(command, first, second) && IsGap(gap) && AllPlain(name)
    ensures ReadsPipeline(longer, first, second + [name, value])
  {
    hide ReadsPipeline, AllPlain, Quoted;
    var quoted := ShellQuote(value);
    longer := command + gap + name + " " + quoted;
    AddArgument(command, first, second, gap, name);
    AddArgument(command + gap + name, first, second + [name], " ", value);
    assert second + [name] + [value] == second + [name, value];
  }

  method PushSources(command: string, gap: string, i: Install, ghost first: seq<string>, ghost second: seq<string>)
    returns (longer: string)
    requires ReadsPipeline(command, first, second) && IsGap(gap)
    ensures ReadsPipeline(longer, first, second + SourceArgs(i))
  {
    hide ReadsPipeline, IsGap;
    OptionNamesArePlain();
    longer := command;
    ghost var args := second;
    if i.channel.Some? {
      longer := PushOption(longer, gap, "--channel", i.channel.value, first, args);
    } else {
      assert args + [] == args;
    }
    args := args + OptionArgs("--channel", i.channel);
    if i.artifactUrl.Some? {
      longer := PushOption(longer, gap, "--artifact-url", i.artifactUrl.value, first, args);
    } else {
      assert args + [] == args;
    }
    args := args + OptionArgs("--artifact-url", i.artifactUrl);
    if i.sha256Url.Some? {
      longer := PushOption(longer, gap, "--sha256-url", i.sha256Url.value, first, args);
    } else {
      assert args + [] == args;
    }
    args := args + OptionArgs("--sha256-url", i.sha256Url);
    longer := PushOption(longer, gap, "--download-mode", InstallerDownloadModeArg(i.downloadMode), first, args);
    args := args + ["--download-mode", InstallerDownloadModeArg(i.downloadMode)];
    assert args == second + SourceArgs(i);
  }

  lemma OptionNamesArePlain()
    ensures AllPlain("--channel") && AllPlain("--artifact-url") && AllPlain("--sha256-url") && AllPlain("--download-mode")
    ensures AllPlain("--bootstrap-url") && AllPlain("--bootstrap-token") && AllPlain("--enable-control-plane")
  {
    MoreNames();
  }

  lemma MoreNames()
    ensures AllPlain("--bootstrap-url") && AllPlain("--bootstrap-token") && AllPlain("--enable-control-plane")
  {
  }

  lemma CommandNamesArePlain()
    ensures AllPlain("curl") && AllPlain("-fsSL") && AllPlain("sudo") && AllPlain("bash") && AllPlain("-s") && AllPlain("--")
    ensures AllPlain("-S") && AllPlain("-p")
  {
  }

  /** The command an administrator pastes: it runs curl on the install address and pipes it to a root
      shell with exactly these arguments, whatever characters they contain. */
  method BuildBootstrapInstallCommand(i: Install) returns (command: string)
    ensures ShellReads(command)
      == Some([FetchArgs(i), ["sudo", "bash"] + BootstrapArgs(i) + SourceArgs(i) + EnableArgs(i)])
  {
    hide ReadsPipeline, AllPlain, Quoted, ShellReads;
    OptionNamesArePlain();
    CommandNamesArePlain();
    var gap := " \\\n  ";
    ghost var first := FetchArgs(i);
    ghost var second := ["sudo"];
    var installUrl := ShellQuote(i.installUrl);
    command := "curl" + " " + "-fsSL" + " " + installUrl + " | " + "sudo";
    FetchReads(i, "sudo");
    command := command + " " + "bash" + " " + "-s" + " " + "--";
    RunnerReads("curl" + " " + "-fsSL" + " " + installUrl + " | " + "sudo", first, second);
    second := ["sudo", "bash", "-s", "--"];
    command := PushOption(command, gap, "--bootstrap-url", i.bootstrapUrl, first, second);
    second := second + ["--bootstrap-url", i.bootstrapUrl];
    command := PushOption(command, gap, "--bootstrap-token", i.bootstrapToken, first, second);
    second := second + ["--bootstrap-token", i.bootstrapToken];
    assert second == ["sudo", "bash"] + BootstrapArgs(i);
    command := PushSources(command, gap, i, first, second);
    second := second + SourceArgs(i);
    if i.enableControlPlane {
      AddArgument(command, first, second, gap, "--enable-control-plane");
      command := command + gap + "--enable-control-plane";
    } else {
      assert second + [] == second;
    }
    PipelineReads(command, first, second + EnableArgs(i));
  }

  /** The command run over SSH, with or without sudo reading its password from standard input with an
      empty prompt. */
  method BuildRemoteBootstrapInstallCommand(i: Install, useSudo: bool) returns (command: string)
    ensures ShellReads(command)
      == Some([FetchArgs(i), (if useSudo then ["sudo", "-S", "-p", "", "bash"] else ["bash"])
                             + BootstrapArgs(i) + EnableArgs(i) + SourceArgs(i)])
  {
    hide ReadsPipeline, AllPlain, Quoted, ShellReads;
    OptionNamesArePlain();
    CommandNamesArePlain();
    var gap := " ";
    ghost var first := FetchArgs(i);
    ghost var second;
    var installUrl := ShellQuote(i.installUrl);
    command := "curl" + " " + "-fsSL" + " " + installUrl + " | ";
    if useSudo {
      command := command + "sudo";
      FetchReads(i, "sudo");
      command := SudoRunner(command, first);
      second := ["sudo", "-S", "-p", "", "bash"];
    } else {
      command := command + "bash";
      FetchReads(i, "bash");
      second := ["bash"];
    }
    AddArgument(command, first, second, gap, "-s");
    command := command + gap + "-s";
    second := second + ["-s"];
    AddArgument(command, first, second, gap, "--");
    command := command + gap + "--";
    second := second + ["--"];
    command := PushOption(command, gap, "--bootstrap-url", i.bootstrapUrl, first, second);
    second := second + ["--bootstrap-url", i.bootstrapUrl];
    command := PushOption(command, gap, "--bootstrap-token", i.bootstrapToken, first, second);
    second := second + ["--bootstrap-token", i.bootstrapToken];
    if i.enableControlPlane {
      AddArgument(command, first, second, gap, "--enable-control-plane");
      command := command + gap + "--enable-control-plane";
    } else {
      assert second + [] == second;
    }
    second := second + EnableArgs(i);
    assert second == (if useSudo then ["sudo", "-S", "-p", "", "bash"] else ["bash"]) + BootstrapArgs(i) + EnableArgs(i);
    command := PushSources(command, gap, i, first, second);
    PipelineReads(command, first, second + SourceArgs(i));
  }

  method SudoRunner(command: string, ghost first: seq<string>) returns (longer: string)
    requires ReadsPipeline(command, first, ["sudo"])
    ensures ReadsPipeline(longer, first, ["sudo", "-S", "-p", "", "bash"])
  {
    hide ReadsPipeline, AllPlain;
    CommandNamesArePlain();
    assert Quoted("") == "''";
    assert ["sudo"] + ["-S"] == ["sudo", "-S"] && ["sudo", "-S"] + ["-p"] == ["sudo", "-S", "-p"];
    assert ["sudo", "-S", "-p"] + [""] == ["sudo", "-S", "-p", ""];
    assert ["sudo", "-S", "-p", ""] + ["bash"] == ["sudo", "-S", "-p", "", "bash"];
    AddArgument(command, first, ["sudo"], " ", "-S");
    AddArgument(command + " " + "-S", first, ["sudo", "-S"], " ", "-p");
    AddArgument(command + " " + "-S" + " " + "-p", first, ["sudo", "-S", "-p"], " ", "");
    AddArgument(command + " " + "-S" + " " + "-p" + " " + "''", first, ["sudo", "-S", "-p", ""], " ", "bash");
    longer := command + " " + "-S" + " " + "-p" + " " + "''" + " " + "bash";
  }

  lemma FetchReads(i: Install, runner: string)
    requires AllPlain(runner)
    ensures ReadsPipeline("curl" + " " + "-fsSL" + " " + Quoted(i.installUrl) + " | " + runner, FetchArgs(i), [runner])
  {
    hide ReadsTo, AllPlain, Quoted;
    CommandNamesArePlain();
    StartsWith("curl");
    NextPlain("curl", [Word("curl")], " ", "-fsSL");
    var tokens := [Word("curl")] + [Word("-fsSL")];
    NextQuoted("curl" + " " + "-fsSL", tokens, " ", i.installUrl);
    assert tokens + [Word(i.installUrl)] == Words(FetchArgs(i));
    NextCommand("curl" + " " + "-fsSL" + " " + Quoted(i.installUrl), Words(FetchArgs(i)), runner);
    assert Words(FetchArgs(i)) + [Pipe, Word(runner)] == Words(FetchArgs(i)) + [Pipe] + Words([runner]);
  }

  lemma RunnerReads(text: string, first: seq<string>, second: seq<string>)
    requires ReadsPipeline(text, first, second) && second == ["sudo"]
    ensures ReadsPipeline(text + " " + "bash" + " " + "-s" + " " + "--", first, ["sudo", "bash", "-s", "--"])
  {
    hide ReadsPipeline, AllPlain, Quoted;
    CommandNamesArePlain();
    assert second + ["bash"] == ["sudo", "bash"] && ["sudo", "bash"] + ["-s"] == ["sudo", "bash", "-s"];
    assert ["sudo", "bash", "-s"] + ["--"] == ["sudo", "bash", "-s", "--"];
    AddArgument(text, first, second, " ", "bash");
    AddArgument(text + " " + "bash", first, ["sudo", "bash"], " ", "-s");
    AddArgument(text + " " + "bash" + " " + "-s", first, ["sudo", "bash", "-s"], " ", "--");
  }

  lemma PipelineReads(text: string, first: seq<string>, second: seq<string>)
    requires ReadsPipeline(text, first, second)
    ensures ShellReads(text) == Some([first, second])
  {
    hide ReadsTo, Lex;
    ReadsWhole(text, Words(first) + [Pipe] + Words(second));
    CommandsOfPipeline(first, second);
  }
}
