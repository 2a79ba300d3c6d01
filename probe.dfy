/** One connectivity probe (`test_dynamodb_connection` in app.py): a single
    table-listing call against the data store, which either returns or raises.
    The call itself, its timing and its log lines are outside the model; what
    remains is the boolean result and the outcome tag the probe logs. */
module Probe {
  import opened Text

  /** What the table-listing call did: it returned a response, or it raised
      an `Exception` whose text is `message` (`str(e)`). */
  datatype CallResult = Returned | Raised(message: string)

  /** The tag of the probe's log line. */
  datatype Outcome = Success | Timeout | Failed

  const TimeoutWord: string := "timeout"
  const TimedOutWords: string := "timed out"

  /** The failure text mentions a timeout, in any letter case: its
      lower-cased form holds "timeout" or "timed out" at some offset. */
  predicate IsTimeoutMessage(msg: string)
    ensures IsTimeoutMessage(msg) <==>
              Occurs(Lower(msg), TimeoutWord) || Occurs(Lower(msg), TimedOutWords)
  {
    ContainsIffOccurs(Lower(msg), TimeoutWord);
    ContainsIffOccurs(Lower(msg), TimedOutWords);
    Contains(Lower(msg), TimeoutWord) || Contains(Lower(msg), TimedOutWords)
  }

  /** The tag the probe logs for one call: SUCCESS when the call returned,
      otherwise TIMEOUT or FAILED by the text of the exception. */
  function Classify(call: CallResult): (o: Outcome)
    ensures o == Success <==> call.Returned?
  {
    match call
    case Returned => Success
    case Raised(msg) => if IsTimeoutMessage(msg) then Timeout else Failed
  }

  /** The probe's return value: true exactly when the call returned. Every
      `Exception` the call raises is caught, so such a failure yields false;
      the result agrees with the log tag, true exactly when SUCCESS is
      logged and false for both TIMEOUT and FAILED. */
  function TestConnection(call: CallResult): (ok: bool)
    ensures ok <==> Classify(call) == Success
    ensures !ok <==> Classify(call) in {Timeout, Failed}
  {
    call.Returned?
  }

  /** A failure is tagged TIMEOUT exactly when its lower-cased text holds
      "timeout" or "timed out" at some position, and FAILED otherwise. */
  lemma {:induction false} TimeoutIffSubstring(msg: string)
    ensures Classify(Raised(msg)) == Timeout <==>
              (exists i :: OccursAt(Lower(msg), TimeoutWord, i)) ||
              (exists i :: OccursAt(Lower(msg), TimedOutWords, i))
    ensures Classify(Raised(msg)) == Failed <==>
              (forall i :: !OccursAt(Lower(msg), TimeoutWord, i)) &&
              (forall i :: !OccursAt(Lower(msg), TimedOutWords, i))
  {
    ContainsIffOccurs(Lower(msg), TimeoutWord);
    ContainsIffOccurs(Lower(msg), TimedOutWords);
    assert IsTimeoutMessage(msg) <==> Contains(Lower(msg), TimeoutWord) || Contains(Lower(msg), TimedOutWords);
  }

  /** Classification ignores letter case: two messages that agree up to the
      case of ASCII letters get the same tag. */
  lemma {:induction false} ClassifyIgnoresCase(a: string, b: string)
    requires |a| == |b|
    requires forall i :: 0 <= i < |a| ==> LowerChar(a[i]) == LowerChar(b[i])
    ensures Classify(Raised(a)) == Classify(Raised(b))
  {
    LowerEqualIgnoringCase(a, b);
  }

  /** Lower-casing a message first does not change its tag. */
  lemma {:induction false} ClassifyOfLowered(msg: string)
    ensures Classify(Raised(Lower(msg))) == Classify(Raised(msg))
  {
    LowerIdempotent(msg);
  }

  /** "Connect TIMEOUT" is a timeout: the upper-case word is found. */
  lemma UpperTimeoutIsTimeout(msg: string)
    requires msg == "Connect TIMEOUT"
    ensures Classify(Raised(msg)) == Timeout
  {
    LowerAgrees(msg, "connect timeout");
    FoundAt(Lower(msg), TimeoutWord, 8);
  }

  /** "Read Timed Out" is a timeout through the second phrase. */
  lemma MixedCaseTimedOutIsTimeout(msg: string)
    requires msg == "Read Timed Out"
    ensures Classify(Raised(msg)) == Timeout
  {
    LowerAgrees(msg, "read timed out");
    FoundAt(Lower(msg), TimedOutWords, 5);
  }

  /** "TIMED OUT", all in capitals, is a timeout. */
  lemma UpperTimedOutIsTimeout(msg: string)
    requires msg == "TIMED OUT"
    ensures Classify(Raised(msg)) == Timeout
  {
    LowerAgrees(msg, "timed out");
    FoundAt(Lower(msg), TimedOutWords, 0);
  }

  /** "Connect timeout on endpoint" is a timeout. */
  lemma ConnectTimeoutIsTimeout(msg: string)
    requires msg == "Connect timeout on endpoint"
    ensures Classify(Raised(msg)) == Timeout
  {
    LowerAgrees(msg, "connect timeout on endpoint");
    FoundAt(Lower(msg), TimeoutWord, 8);
  }

  /** "Access denied" holds neither phrase: a plain failure. */
  lemma AccessDeniedIsFailed(msg: string)
    requires msg == "Access denied"
    ensures Classify(Raised(msg)) == Failed
  {
    var l := Lower(msg);
    LowerAgrees(msg, "access denied");
    forall i ensures !OccursAt(l, TimeoutWord, i) && !OccursAt(l, TimedOutWords, i) {
      if 0 <= i && i + |TimeoutWord| <= |l| {
        assert l[i..i + |TimeoutWord|][0] == l[i];
      }
      if 0 <= i && i + |TimedOutWords| <= |l| {
        assert l[i..i + |TimedOutWords|][0] == l[i];
      }
    }
    ContainsIffOccurs(l, TimeoutWord);
    ContainsIffOccurs(l, TimedOutWords);
  }

  /** "time out", with a space, is not a timeout: "timeout" does not occur
      in it and "timed out" is longer than it. */
  lemma SpacedTimeOutIsFailed(msg: string)
    requires msg == "time out"
    ensures Classify(Raised(msg)) == Failed
  {
    var l := Lower(msg);
    LowerAgrees(msg, "time out");
    forall i ensures !OccursAt(l, TimeoutWord, i) {
      if 0 <= i && i + |TimeoutWord| <= |l| {
        assert l[i..i + |TimeoutWord|][0] == l[i];
        assert l[i..i + |TimeoutWord|][4] == l[i + 4];
      }
    }
    ContainsIffOccurs(l, TimeoutWord);
    ContainsIffOccurs(l, TimedOutWords);
  }
}
