/** Sequences of response codes. */
module ResponseCodes {

  predicate AllProvisional(codes: seq<nat>) { forall k :: 0 <= k < |codes| ==> codes[k] < 200 }
  predicate AllSuccess(codes: seq<nat>) { forall k :: 0 <= k < |codes| ==> 200 <= codes[k] < 300 }

  /** 1xx* 2xx+ */
  predicate Answered(codes: seq<nat>) {
    exists n :: 0 <= n < |codes| && AllProvisional(codes[..n]) && AllSuccess(codes[n..])
  }

  /** 1xx* and one 3xx-6xx */
  predicate Refused(codes: seq<nat>) {
    codes != [] && AllProvisional(codes[..|codes| - 1]) && codes[|codes| - 1] >= 300
  }

  /** 1xx* followed by 2xx* or by one single 3xx-6xx. */
  predicate Grammar(codes: seq<nat>) { AllProvisional(codes) || Answered(codes) || Refused(codes) }

  lemma OneMore(codes: seq<nat>, code: nat)
    ensures AllProvisional(codes) && code < 200 ==> AllProvisional(codes + [code])
    ensures (AllProvisional(codes) || Answered(codes)) && 200 <= code < 300 ==> Answered(codes + [code])
    ensures AllProvisional(codes) && code >= 300 ==> Refused(codes + [code])
  {
    var cs := codes + [code];
    assert cs[..|codes|] == codes && cs[|codes|..] == [code];
    if Answered(codes) && 200 <= code < 300 {
      var n :| 0 <= n < |codes| && AllProvisional(codes[..n]) && AllSuccess(codes[n..]);
      assert cs[..n] == codes[..n] && cs[n..] == codes[n..] + [code];
    }
  }

  /** A code of 300 or more ends the sequence. */
  lemma OnlyTheLast(codes: seq<nat>, k: nat)
    requires Grammar(codes) && k < |codes| && codes[k] >= 300
    ensures k == |codes| - 1
  {}
}
