/** The records the eConsent dashboard receives from its services, shared by
    every controller of the model. A JavaScript field that may be `undefined`
    is an `Option`; an operation that can throw is modelled with `Result`. */
module Records {

  datatype Option<+T> = None | Some(value: T)

  datatype Result<+R, +E> = Success(value: R) | Failure(error: E)

  function Min(a: int, b: int): int { if a <= b then a else b }

  /** How `slice` and `splice` turn a relative index into a position of a
      sequence of length `n`: a negative index counts from the end, and the
      result is clamped to `0 .. n`. */
  function RelativeIndex(i: int, n: nat): (r: nat)
    ensures r <= n
    ensures 0 <= i ==> r == Min(i, n)
    ensures i < 0 && -i <= n ==> r == n + i
    ensures i < 0 && n < -i ==> r == 0
  {
    if i < 0 then (if n + i < 0 then 0 else n + i)
    else if i < n then i
    else n
  }

  /** One action recorded against a consent version. `actionType` is the
      action's `type` field (`hco` or `tp` for a `sign`). */
  datatype Action = Action(tpDid: string, name: string, actionType: string, toShowDate: string)

  /** The `hcoSign` object of a version or of an econsent: only its display date is read. */
  datatype HcoSign = HcoSign(toShowDate: string)

  /** One version of an econsent document. */
  datatype Version = Version(
    attachmentKeySSI: string,
    version: string,
    versionDate: string,
    actions: Option<seq<Action>>,
    hcoSign: Option<HcoSign>,
    tsDeclined: Option<string>)

  /** An econsent document (`consentType` is its `type` field). */
  datatype Econsent = Econsent(
    uid: string,
    keySSI: string,
    name: string,
    consentType: string,
    versions: Option<seq<Version>>,
    hcoSign: Option<HcoSign>)

  /** A trial participant, either the obfuscated record kept in the HCO DSU or
      the full record of the participant repository. */
  datatype TrialParticipant = TrialParticipant(
    did: string,
    trialNumber: Option<string>,
    status: string,
    name: string,
    birthdate: string,
    enrolledDate: string)

  /** `tps.filter(tp => tp.trialNumber === trialId)`: two undefined values are
      equal, so with an undefined trial id the participants without a trial
      number are selected. */
  function OfTrial(tps: seq<TrialParticipant>, trialId: Option<string>): (r: seq<TrialParticipant>)
    ensures |r| <= |tps|
    ensures forall p :: p in r ==> p in tps && p.trialNumber == trialId
    ensures forall p :: p in tps && p.trialNumber == trialId ==> p in r
  {
    if tps == [] then []
    else
      (if tps[0].trialNumber == trialId then [tps[0]] else []) + OfTrial(tps[1..], trialId)
  }

  /** Every participant of the trial is kept as often as it occurs, and no other. */
  lemma {:induction false} OfTrialKeepsEveryOccurrence(tps: seq<TrialParticipant>, trialId: Option<string>)
    ensures forall p :: multiset(OfTrial(tps, trialId))[p] ==
              if p.trialNumber == trialId then multiset(tps)[p] else 0
    decreases |tps|
  {
    if tps != [] {
      assert tps == [tps[0]] + tps[1..];
      OfTrialKeepsEveryOccurrence(tps[1..], trialId);
    }
  }

  /** The filter works element by element and keeps the order: filtering a
      concatenation concatenates the filtered parts, and a single participant
      is kept exactly when it belongs to the trial. */
  lemma {:induction false} OfTrialAppend(a: seq<TrialParticipant>, b: seq<TrialParticipant>, trialId: Option<string>)
    ensures OfTrial(a + b, trialId) == OfTrial(a, trialId) + OfTrial(b, trialId)
    ensures forall p :: OfTrial([p], trialId) == if p.trialNumber == trialId then [p] else []
    decreases |a|
  {
    forall p ensures OfTrial([p], trialId) == if p.trialNumber == trialId then [p] else [] {
      assert [p][1..] == [];
    }
    if a == [] {
      assert a + b == b;
    } else {
      var x, t := a[0], a[1..];
      assert a == [x] + t && a + b == [x] + (t + b);
      OfTrialAppend(t, b, trialId);
      OfTrialAppendStep(x, t, b, trialId);
    }
  }

  lemma OfTrialAppendStep(x: TrialParticipant, t: seq<TrialParticipant>, b: seq<TrialParticipant>, trialId: Option<string>)
    requires OfTrial(t + b, trialId) == OfTrial(t, trialId) + OfTrial(b, trialId)
    ensures OfTrial([x] + (t + b), trialId) == OfTrial([x] + t, trialId) + OfTrial(b, trialId)
  {
    var head := if x.trialNumber == trialId then [x] else [];
    var ft, fb := OfTrial(t, trialId), OfTrial(b, trialId);
    calc {
      OfTrial([x] + (t + b), trialId);
    == { OfTrialCons(x, t + b, trialId); }
      head + OfTrial(t + b, trialId);
    ==
      head + (ft + fb);
    == { SeqAssoc(head, ft, fb); }
      (head + ft) + fb;
    == { OfTrialCons(x, t, trialId); }
      OfTrial([x] + t, trialId) + fb;
    }
  }

  lemma SeqAssoc<T>(a: seq<T>, b: seq<T>, c: seq<T>)
    ensures a + (b + c) == (a + b) + c
  {
  }

  /** Filtering a list that starts with `tp`. */
  lemma OfTrialCons(tp: TrialParticipant, rest: seq<TrialParticipant>, trialId: Option<string>)
    ensures OfTrial([tp] + rest, trialId)
         == (if tp.trialNumber == trialId then [tp] else []) + OfTrial(rest, trialId)
  {
    assert ([tp] + rest)[1..] == rest;
  }
}
