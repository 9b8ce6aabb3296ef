/** Validation as an ordered list of checks: a request is accepted when all pass, and otherwise refused
    with the code of the first that fails. */
module Checks {
  import opened Text

  datatype Check = Check(passes: bool, code: string)

  ghost predicate AllPass(checks: seq<Check>) {
    forall k :: 0 <= k < |checks| ==> checks[k].passes
  }

  ghost predicate FailsFirst(checks: seq<Check>, code: string) {
    exists k :: 0 <= k < |checks| && !checks[k].passes && checks[k].code == code && AllPass(checks[..k])
  }

  /** The result is the one the checks call for. */
  ghost predicate Decided<T>(checks: seq<Check>, r: Result<T, string>) {
    if r.Ok? then AllPass(checks) else FailsFirst(checks, r.error)
  }

  lemma FailsAt(checks: seq<Check>, k: nat)
    requires k < |checks| && !checks[k].passes && AllPass(checks[..k])
    ensures FailsFirst(checks, checks[k].code) && !AllPass(checks)
  {
  }

  /** Where the checks fail first, if they do. */
  lemma {:induction false} FirstFailure(checks: seq<Check>) returns (k: nat)
    ensures k <= |checks| && forall j :: 0 <= j < k ==> checks[j].passes
    ensures if k == |checks| then AllPass(checks) else !checks[k].passes && FailsFirst(checks, checks[k].code)
  {
    k := 0;
    while k < |checks| && checks[k].passes
      invariant k <= |checks| && forall j :: 0 <= j < k ==> checks[j].passes
    {
      k := k + 1;
    }
    if k < |checks| {
      FailsAt(checks, k);
    }
  }

  lemma ThreeChecks(c: seq<Check>)
    requires |c| == 3
    ensures AllPass(c) <==> c[0].passes && c[1].passes && c[2].passes
    ensures !c[0].passes ==> FailsFirst(c, c[0].code)
    ensures c[0].passes && !c[1].passes ==> FailsFirst(c, c[1].code)
    ensures c[0].passes && c[1].passes && !c[2].passes ==> FailsFirst(c, c[2].code)
  {
    hide FailsFirst;
    var k := FirstFailure(c);
    assert k in {0, 1, 2, 3};
  }

  /** Six checks, one after the other. */
  lemma SixChecks(c: seq<Check>)
    requires |c| == 6
    ensures AllPass(c) <==> c[0].passes && c[1].passes && c[2].passes && c[3].passes && c[4].passes && c[5].passes
    ensures !c[0].passes ==> FailsFirst(c, c[0].code)
    ensures c[0].passes && !c[1].passes ==> FailsFirst(c, c[1].code)
    ensures c[0].passes && c[1].passes && !c[2].passes ==> FailsFirst(c, c[2].code)
    ensures c[0].passes && c[1].passes && c[2].passes && !c[3].passes ==> FailsFirst(c, c[3].code)
    ensures c[0].passes && c[1].passes && c[2].passes && c[3].passes && !c[4].passes ==> FailsFirst(c, c[4].code)
    ensures c[0].passes && c[1].passes && c[2].passes && c[3].passes && c[4].passes && !c[5].passes ==> FailsFirst(c, c[5].code)
  {
    hide FailsFirst;
    var k := FirstFailure(c);
    assert k in {0, 1, 2, 3, 4, 5, 6};
  }

  lemma FirstFailureIsNoPass(checks: seq<Check>)
    ensures AllPass(checks) <==> forall code :: !FailsFirst(checks, code)
  {
    var k := FirstFailure(checks);
  }

  lemma PassJoined(a: seq<Check>, b: seq<Check>)
    ensures AllPass(a + b) <==> AllPass(a) && AllPass(b)
  {
    assert forall k :: 0 <= k < |a| ==> (a + b)[k] == a[k];
    assert forall k :: 0 <= k < |b| ==> (a + b)[|a| + k] == b[k];
  }

  /** The first failure of two lists, one after the other. */
  lemma FailJoined(a: seq<Check>, b: seq<Check>, code: string)
    ensures FailsFirst(a, code) ==> FailsFirst(a + b, code)
    ensures AllPass(a) && FailsFirst(b, code) ==> FailsFirst(a + b, code)
  {
    if FailsFirst(a, code) {
      var k :| 0 <= k < |a| && !a[k].passes && a[k].code == code && AllPass(a[..k]);
      assert (a + b)[..k] == a[..k];
      FailsAt(a + b, k);
    }
    if AllPass(a) && FailsFirst(b, code) {
      var k :| 0 <= k < |b| && !b[k].passes && b[k].code == code && AllPass(b[..k]);
      assert (a + b)[..|a| + k] == a + b[..k];
      PassJoined(a, b[..k]);
      FailsAt(a + b, |a| + k);
    }
  }

  lemma NoChecks()
    ensures AllPass([]) && forall code :: !FailsFirst([], code)
  {
  }

  /** Two decisions, one after the other. */
  lemma JoinedDecided<S, T, U>(a: seq<Check>, b: seq<Check>, first: Result<S, string>, second: Result<T, string>,
                               both: Result<U, string>)
    requires Decided(a, first) && Decided(b, second)
    requires if first.Err? then both == Err(first.error) else if second.Err? then both == Err(second.error) else both.Ok?
    ensures Decided(a + b, both)
  {
    PassJoined(a, b);
    if both.Err? {
      FailJoined(a, b, both.error);
    }
  }

  /** A list of checks fails first with one code only. */
  lemma OneFirstFailure(checks: seq<Check>, c: string, d: string)
    requires FailsFirst(checks, c) && FailsFirst(checks, d)
    ensures c == d
  {
    var j :| 0 <= j < |checks| && !checks[j].passes && checks[j].code == c && AllPass(checks[..j]);
    var k :| 0 <= k < |checks| && !checks[k].passes && checks[k].code == d && AllPass(checks[..k]);
    assert forall m :: 0 <= m < k ==> checks[..k][m] == checks[m];
    assert forall m :: 0 <= m < j ==> checks[..j][m] == checks[m];
  }
}
