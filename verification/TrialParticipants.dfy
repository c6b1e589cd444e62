/** The participant table of a trial: the index of consent actions by
    participant (`_getEconsentActionsMappedByUser`) and the join of the trial's
    participants with their repository records and their last action
    (`_getTrialParticipantsMappedWithActionRequired`). */
module TrialParticipants {
  import opened Records

  datatype EconsentRef = EconsentRef(uid: string, keySSI: string, name: string, consentType: string)

  datatype VersionRef = VersionRef(attachmentKeySSI: string, version: string, versionDate: string)

  /** One entry of a participant's action list. */
  datatype Entry = Entry(econsent: EconsentRef, version: VersionRef, action: Action)

  /** The `actions` dictionary, keyed by `tpDid`. */
  type ActionIndex = map<string, seq<Entry>>

  function MakeEntry(ec: Econsent, v: Version, a: Action): Entry
  {
    Entry(EconsentRef(ec.uid, ec.keySSI, ec.name, ec.consentType),
          VersionRef(v.attachmentKeySSI, v.version, v.versionDate),
          a)
  }

  // ---------------------------------------------------------------------------
  // The traversal: econsents in order, then versions, then actions.

  function ActionEntries(ec: Econsent, v: Version, acts: seq<Action>): seq<Entry>
  {
    seq(|acts|, i requires 0 <= i < |acts| => MakeEntry(ec, v, acts[i]))
  }

  lemma ActionEntriesSnoc(ec: Econsent, v: Version, acts: seq<Action>, l: nat)
    requires l < |acts|
    ensures ActionEntries(ec, v, acts[..l + 1]) == ActionEntries(ec, v, acts[..l]) + [MakeEntry(ec, v, acts[l])]
  {
    var a, b := ActionEntries(ec, v, acts[..l + 1]), ActionEntries(ec, v, acts[..l]) + [MakeEntry(ec, v, acts[l])];
    assert |a| == |b|;
    forall i | 0 <= i < |a| ensures a[i] == b[i] {
      assert acts[..l + 1][i] == acts[i];
      if i < l {
        assert acts[..l][i] == acts[i];
      }
    }
  }

  /** A version with undefined `actions` contributes nothing. */
  function VersionEntries(ec: Econsent, v: Version): seq<Entry>
  {
    match v.actions
    case None => []
    case Some(acts) => ActionEntries(ec, v, acts)
  }

  function VersionsEntries(ec: Econsent, vs: seq<Version>): seq<Entry>
    decreases |vs|
  {
    if vs == [] then []
    else VersionsEntries(ec, vs[..|vs| - 1]) + VersionEntries(ec, vs[|vs| - 1])
  }

  lemma VersionsEntriesSnoc(ec: Econsent, vs: seq<Version>, j: nat)
    requires j < |vs|
    ensures VersionsEntries(ec, vs[..j + 1]) == VersionsEntries(ec, vs[..j]) + VersionEntries(ec, vs[j])
  {
    assert vs[..j + 1][..j] == vs[..j];
  }

  /** An econsent with undefined `versions` contributes nothing. */
  function EconsentEntries(ec: Econsent): seq<Entry>
  {
    match ec.versions
    case None => []
    case Some(vs) => VersionsEntries(ec, vs)
  }

  /** Every entry the index build visits, in visiting order. */
  function Traversal(ecs: seq<Econsent>): seq<Entry>
    decreases |ecs|
  {
    if ecs == [] then []
    else Traversal(ecs[..|ecs| - 1]) + EconsentEntries(ecs[|ecs| - 1])
  }

  function VersionActionCount(v: Version): nat
  {
    match v.actions
    case None => 0
    case Some(acts) => |acts|
  }

  function VersionsActionCount(vs: seq<Version>): nat
    decreases |vs|
  {
    if vs == [] then 0
    else VersionsActionCount(vs[..|vs| - 1]) + VersionActionCount(vs[|vs| - 1])
  }

  /** The number of actions in all versions of all econsents. */
  function ActionCount(ecs: seq<Econsent>): nat
    decreases |ecs|
  {
    if ecs == [] then 0
    else
      var ec := ecs[|ecs| - 1];
      ActionCount(ecs[..|ecs| - 1]) + (if ec.versions.Some? then VersionsActionCount(ec.versions.value) else 0)
  }

  // ---------------------------------------------------------------------------
  // The index as a fold of pushes, and its reference definition as a filter.

  /** Append `e` to the list of its participant, creating the list first. */
  function Push(index: ActionIndex, e: Entry): ActionIndex
  {
    var k := e.action.tpDid;
    index[k := (if k in index then index[k] else []) + [e]]
  }

  /** The dictionary obtained by pushing `es` one by one into `index`. */
  function PushAll(index: ActionIndex, es: seq<Entry>): ActionIndex
    decreases |es|
  {
    if es == [] then index
    else Push(PushAll(index, es[..|es| - 1]), es[|es| - 1])
  }

  /** The index obtained by pushing `es` one by one into an empty dictionary. */
  function Group(es: seq<Entry>): ActionIndex
  {
    PushAll(map[], es)
  }

  /** The entries of `es` that belong to participant `k`, in their order in `es`. */
  function EntriesFor(es: seq<Entry>, k: string): (r: seq<Entry>)
    ensures |r| <= |es|
    ensures forall e :: e in r ==> e in es && e.action.tpDid == k
    ensures forall e :: e in es && e.action.tpDid == k ==> e in r
    decreases |es|
  {
    if es == [] then []
    else
      var last := es[|es| - 1];
      assert es == es[..|es| - 1] + [last];
      EntriesFor(es[..|es| - 1], k) + (if last.action.tpDid == k then [last] else [])
  }

  /** The participant keys in the order in which they first occur in `es`:
      the order in which the dictionary's keys are created. */
  function FirstSeen(es: seq<Entry>): seq<string>
    decreases |es|
  {
    if es == [] then []
    else
      var ks := FirstSeen(es[..|es| - 1]);
      var k := es[|es| - 1].action.tpDid;
      if k in ks then ks else ks + [k]
  }

  ghost predicate Distinct(ks: seq<string>)
  {
    forall i, j :: 0 <= i < j < |ks| ==> ks[i] != ks[j]
  }

  function ListLength(index: ActionIndex, k: string): nat
  {
    if k in index then |index[k]| else 0
  }

  /** The total number of entries stored under the keys `ks`. */
  function SumLengths(index: ActionIndex, ks: seq<string>): nat
    decreases |ks|
  {
    if ks == [] then 0
    else SumLengths(index, ks[..|ks| - 1]) + ListLength(index, ks[|ks| - 1])
  }

  /** Pushing one more entry extends the fold by one step. */
  lemma PushAllSnoc(index: ActionIndex, es: seq<Entry>, e: Entry)
    ensures PushAll(index, es + [e]) == Push(PushAll(index, es), e)
  {
    assert (es + [e])[..|es|] == es;
  }

  /** Pushing two runs of entries is pushing their concatenation. */
  lemma {:induction false} PushAllAppend(index: ActionIndex, a: seq<Entry>, b: seq<Entry>)
    ensures PushAll(index, a + b) == PushAll(PushAll(index, a), b)
    decreases |b|
  {
    if b == [] {
      assert a + b == a;
    } else {
      var init, last := b[..|b| - 1], b[|b| - 1];
      assert a + b == (a + init) + [last];
      assert b == init + [last];
      PushAllAppend(index, a, init);
      PushAllSnoc(index, a + init, last);
      PushAllSnoc(PushAll(index, a), init, last);
    }
  }

  lemma EntriesForEmpty(es: seq<Entry>, k: string)
    requires forall e :: e in es ==> e.action.tpDid != k
    ensures EntriesFor(es, k) == []
  {
    if EntriesFor(es, k) != [] {
      assert EntriesFor(es, k)[0] in EntriesFor(es, k);
    }
  }

  /** Grouping keeps exactly the participants that occur, and stores under
      each one exactly its entries, in traversal order. */
  lemma {:induction false} GroupIsFilter(es: seq<Entry>)
    ensures forall k :: k in Group(es) <==> exists e :: e in es && e.action.tpDid == k
    ensures forall k :: k in Group(es) ==> Group(es)[k] == EntriesFor(es, k) && Group(es)[k] != []
    decreases |es|
  {
    if es != [] {
      var init, last := es[..|es| - 1], es[|es| - 1];
      assert es == init + [last];
      GroupIsFilter(init);
      var g := Group(init);
      PushAllSnoc(map[], init, last);
      assert Group(es) == Push(g, last);
      forall k | k in Group(es)
        ensures Group(es)[k] == EntriesFor(es, k) && Group(es)[k] != []
      {
        assert EntriesFor(es, k) == EntriesFor(init, k) + (if last.action.tpDid == k then [last] else []);
        if k == last.action.tpDid && k !in g {
          EntriesForEmpty(init, k);
        }
      }
      forall k
        ensures k in Group(es) <==> exists e :: e in es && e.action.tpDid == k
      {
        if k in Group(es) && k != last.action.tpDid {
          var e :| e in init && e.action.tpDid == k;
          assert e in es;
        }
        if exists e :: e in es && e.action.tpDid == k {
          var e :| e in es && e.action.tpDid == k;
          if e != last {
            assert e in init;
          }
        }
      }
    }
  }

  lemma {:induction false} FirstSeenKeys(es: seq<Entry>)
    ensures Distinct(FirstSeen(es))
    ensures forall k :: k in FirstSeen(es) <==> k in Group(es)
    decreases |es|
  {
    if es != [] {
      FirstSeenKeys(es[..|es| - 1]);
    }
  }

  lemma {:induction false} SumIgnoresOtherKeys(index: ActionIndex, ks: seq<string>, k: string, v: seq<Entry>)
    requires k !in ks
    ensures SumLengths(index[k := v], ks) == SumLengths(index, ks)
    decreases |ks|
  {
    if ks != [] {
      SumIgnoresOtherKeys(index, ks[..|ks| - 1], k, v);
    }
  }

  lemma {:induction false} SumCountsKeyOnce(index: ActionIndex, ks: seq<string>, k: string, v: seq<Entry>)
    requires Distinct(ks) && k in ks && k in index && |v| == |index[k]| + 1
    ensures SumLengths(index[k := v], ks) == SumLengths(index, ks) + 1
    decreases |ks|
  {
    var init, last := ks[..|ks| - 1], ks[|ks| - 1];
    assert Distinct(init);
    if last == k {
      assert k !in init;
      SumIgnoresOtherKeys(index, init, k, v);
    } else {
      assert k in init;
      SumCountsKeyOnce(index, init, k, v);
    }
  }

  lemma SumNewKey(index: ActionIndex, ks: seq<string>, k: string, v: seq<Entry>)
    requires k !in ks
    ensures SumLengths(index[k := v], ks + [k]) == SumLengths(index, ks) + |v|
  {
    SumIgnoresOtherKeys(index, ks, k, v);
    assert (ks + [k])[..|ks|] == ks;
  }

  /** The index loses and duplicates nothing: summed over its keys, the list
      lengths add up to the number of entries pushed. */
  lemma {:induction false} GroupLosesNothing(es: seq<Entry>)
    ensures SumLengths(Group(es), FirstSeen(es)) == |es|
    decreases |es|
  {
    if es != [] {
      var init, last := es[..|es| - 1], es[|es| - 1];
      var k := last.action.tpDid;
      GroupLosesNothing(init);
      FirstSeenKeys(init);
      var g, ks := Group(init), FirstSeen(init);
      PushAllSnoc(map[], init, last);
      assert Group(es) == Push(g, last);
      if k in ks {
        assert FirstSeen(es) == ks;
        SumCountsKeyOnce(g, ks, k, g[k] + [last]);
      } else {
        assert FirstSeen(es) == ks + [k];
        assert k !in g;
        assert [] + [last] == [last];
        assert Push(g, last) == g[k := [last]];
        SumNewKey(g, ks, k, [last]);
      }
    }
  }

  lemma {:induction false} VersionsTraversalCount(ec: Econsent, vs: seq<Version>)
    ensures |VersionsEntries(ec, vs)| == VersionsActionCount(vs)
    decreases |vs|
  {
    if vs != [] {
      VersionsTraversalCount(ec, vs[..|vs| - 1]);
    }
  }

  /** One entry per action: nothing is skipped but undefined lists. */
  lemma {:induction false} TraversalCount(ecs: seq<Econsent>)
    ensures |Traversal(ecs)| == ActionCount(ecs)
    decreases |ecs|
  {
    if ecs != [] {
      TraversalCount(ecs[..|ecs| - 1]);
      var ec := ecs[|ecs| - 1];
      if ec.versions.Some? {
        VersionsTraversalCount(ec, ec.versions.value);
      }
    }
  }

  /** The properties of the index built from a list of econsents. */
  lemma IndexProperties(ecs: seq<Econsent>)
    ensures Group(Traversal([])) == map[]
    ensures SumLengths(Group(Traversal(ecs)), FirstSeen(Traversal(ecs))) == ActionCount(ecs)
    ensures Distinct(FirstSeen(Traversal(ecs)))
    ensures forall k :: k in FirstSeen(Traversal(ecs)) <==> k in Group(Traversal(ecs))
    ensures forall k :: k in Group(Traversal(ecs)) ==> Group(Traversal(ecs))[k] == EntriesFor(Traversal(ecs), k)
  {
    var es := Traversal(ecs);
    GroupLosesNothing(es);
    TraversalCount(ecs);
    FirstSeenKeys(es);
    GroupIsFilter(es);
  }

  /** The innermost `forEach`: push one entry per action of `version`,
      creating a participant's list just before its first push. */
  method IndexActions(actions: ActionIndex, econsent: Econsent, version: Version, acts: seq<Action>)
    returns (result: ActionIndex)
    ensures result == PushAll(actions, ActionEntries(econsent, version, acts))
  {
    result := actions;
    var l := 0;
    while l < |acts|
      invariant 0 <= l <= |acts|
      invariant result == PushAll(actions, ActionEntries(econsent, version, acts[..l]))
    {
      var action := acts[l];
      var entry := MakeEntry(econsent, version, action);
      ActionEntriesSnoc(econsent, version, acts, l);
      PushAllSnoc(actions, ActionEntries(econsent, version, acts[..l]), entry);
      if action.tpDid !in result {
        result := result[action.tpDid := []];
      }
      result := result[action.tpDid := result[action.tpDid] + [entry]];
      l := l + 1;
    }
    assert acts[..l] == acts;
  }

  /** The middle `forEach`: the versions of one econsent; a version whose
      `actions` is undefined is skipped. */
  method IndexVersions(actions: ActionIndex, econsent: Econsent, versions: seq<Version>)
    returns (result: ActionIndex)
    ensures result == PushAll(actions, VersionsEntries(econsent, versions))
  {
    result := actions;
    var j := 0;
    while j < |versions|
      invariant 0 <= j <= |versions|
      invariant result == PushAll(actions, VersionsEntries(econsent, versions[..j]))
    {
      var version := versions[j];
      VersionsEntriesSnoc(econsent, versions, j);
      PushAllAppend(actions, VersionsEntries(econsent, versions[..j]), VersionEntries(econsent, version));
      if version.actions.Some? {
        result := IndexActions(result, econsent, version, version.actions.value);
      }
      j := j + 1;
    }
    assert versions[..j] == versions;
  }

  /** `_getEconsentActionsMappedByUser`, with the econsents returned by the
      trial service as a parameter; an econsent whose `versions` is undefined
      is skipped. */
  method BuildIndex(econsents: seq<Econsent>) returns (actions: ActionIndex)
    ensures actions == Group(Traversal(econsents))
  {
    actions := map[];
    var i := 0;
    while i < |econsents|
      invariant 0 <= i <= |econsents|
      invariant actions == Group(Traversal(econsents[..i]))
    {
      var econsent := econsents[i];
      assert econsents[..i + 1][..i] == econsents[..i];
      assert Traversal(econsents[..i + 1]) == Traversal(econsents[..i]) + EconsentEntries(econsent);
      PushAllAppend(map[], Traversal(econsents[..i]), EconsentEntries(econsent));
      if econsent.versions.Some? {
        actions := IndexVersions(actions, econsent, econsent.versions.value);
      } else {
        assert Traversal(econsents[..i]) + [] == Traversal(econsents[..i]);
      }
      i := i + 1;
    }
    assert econsents[..i] == econsents;
  }

  // ---------------------------------------------------------------------------
  // The status step.

  /** The closed set of labels of the `actionNeeded` column. */
  datatype ActionNeeded = NoActionRequired | TpWithdrawed | ReconsentRequired | ConsentedByHco | AcknowledgementRequired
  {
    function Text(): string
    {
      match this
      case NoActionRequired => "No action required"
      case TpWithdrawed => "TP Withdrawed"
      case ReconsentRequired => "Reconsent required"
      case ConsentedByHco => "Consented by HCO"
      case AcknowledgementRequired => "Acknowledgement required"
    }
  }

  /** The `switch` on the name and, for `sign`, the type of the last action. */
  function Classify(a: Action): (r: ActionNeeded)
    ensures r == TpWithdrawed <==> a.name == "withdraw"
    ensures r == ReconsentRequired <==> a.name == "withdraw-intention"
    ensures r == ConsentedByHco <==> a.name == "sign" && a.actionType == "hco"
    ensures r == AcknowledgementRequired <==> a.name == "sign" && a.actionType == "tp"
    ensures r == NoActionRequired <==>
      a.name !in {"withdraw", "withdraw-intention", "sign"}
      || (a.name == "sign" && a.actionType !in {"hco", "tp"})
  {
    if a.name == "withdraw" then TpWithdrawed
    else if a.name == "withdraw-intention" then ReconsentRequired
    else if a.name == "sign" then
      (if a.actionType == "hco" then ConsentedByHco
       else if a.actionType == "tp" then AcknowledgementRequired
       else NoActionRequired)
    else NoActionRequired
  }

  /** The label of participant `did` given the action index. */
  function Label(actions: ActionIndex, did: string): ActionNeeded
  {
    if did !in actions || actions[did] == [] then NoActionRequired
    else Classify(actions[did][|actions[did]| - 1].action)
  }

  /** Only the last entry decides the label, whatever came before it. */
  lemma LastEntryDecides(actions: ActionIndex, did: string, earlier: seq<Entry>, last: Entry)
    requires did in actions && actions[did] == earlier + [last]
    ensures Label(actions, did) == Classify(last.action)
  {
  }

  /** Over an index built from econsents, the label of a participant is
      decided by the last of its actions in traversal order (there is no
      re-sorting by `versionDate`), and is the default without any action. */
  lemma {:induction false} LabelFromLastTraversedAction(ecs: seq<Econsent>, did: string)
    ensures var mine := EntriesFor(Traversal(ecs), did);
      Label(Group(Traversal(ecs)), did) ==
        if mine == [] then NoActionRequired else Classify(mine[|mine| - 1].action)
  {
    var es := Traversal(ecs);
    GroupIsFilter(es);
    var mine := EntriesFor(es, did);
    if mine != [] {
      assert mine[0] in mine;
      assert did in Group(es);
    }
  }

  /** Copy of `tp` carrying the fields read from its repository record. */
  function Enrich(tp: TrialParticipant, rec: TrialParticipant): TrialParticipant
  {
    tp.(name := rec.name, birthdate := rec.birthdate, enrolledDate := rec.enrolledDate)
  }

  /** One row of the participant table: the participant and its label. */
  datatype ParticipantStatus = ParticipantStatus(participant: TrialParticipant, actionNeeded: ActionNeeded)

  /** `tpsMappedByDID` after `tps.forEach(tp => tpsMappedByDID[tp.did] = tp)`. */
  function ByDid(records: seq<TrialParticipant>): map<string, TrialParticipant>
    decreases |records|
  {
    if records == [] then map[]
    else ByDid(records[..|records| - 1])[records[|records| - 1].did := records[|records| - 1]]
  }

  /** A record is found under every did that occurs, and it is the last
      record with that did. */
  lemma {:induction false} ByDidLastWins(records: seq<TrialParticipant>, d: string)
    ensures d in ByDid(records) <==> exists i :: 0 <= i < |records| && records[i].did == d
    ensures d in ByDid(records) ==> exists i :: (0 <= i < |records| && records[i] == ByDid(records)[d]
      && records[i].did == d && forall j :: i < j < |records| ==> records[j].did != d)
    decreases |records|
  {
    if records != [] {
      var init, last := records[..|records| - 1], records[|records| - 1];
      ByDidLastWins(init, d);
      assert ByDid(records) == ByDid(init)[last.did := last];
      assert forall j :: 0 <= j < |init| ==> records[j] == init[j];
      if last.did == d {
        assert records[|records| - 1] == ByDid(records)[d] && records[|records| - 1].did == d;
      } else {
        assert d in ByDid(records) <==> d in ByDid(init);
        if d in ByDid(records) {
          assert ByDid(records)[d] == ByDid(init)[d];
          var i :| 0 <= i < |init| && init[i] == ByDid(init)[d] && init[i].did == d
            && forall j :: i < j < |init| ==> init[j].did != d;
          assert records[i] == ByDid(records)[d] && records[i].did == d;
          assert forall j :: i < j < |records| ==> records[j].did != d;
        }
        if exists i :: 0 <= i < |records| && records[i].did == d {
          var i :| 0 <= i < |records| && records[i].did == d;
          assert i < |init| && init[i].did == d;
        }
      }
    }
  }

  /** The loop that fills `tpsMappedByDID`. */
  method MapByDid(records: seq<TrialParticipant>) returns (m: map<string, TrialParticipant>)
    ensures m == ByDid(records)
  {
    m := map[];
    var i := 0;
    while i < |records|
      invariant 0 <= i <= |records|
      invariant m == ByDid(records[..i])
    {
      assert records[..i + 1][..i] == records[..i];
      m := m[records[i].did := records[i]];
      i := i + 1;
    }
    assert records[..i] == records;
  }

  /** The `map` over the trial's participants: every one needs a record, the
      first without one stops the pass (reading a field of `undefined`). */
  function AnnotateAll(tps: seq<TrialParticipant>, byDid: map<string, TrialParticipant>, actions: ActionIndex)
    : Result<seq<ParticipantStatus>, string>
    decreases |tps|
  {
    if tps == [] then Success([])
    else if tps[0].did !in byDid then Failure(tps[0].did)
    else
      var rest := AnnotateAll(tps[1..], byDid, actions);
      if rest.Failure? then Failure(rest.error)
      else Success([ParticipantStatus(Enrich(tps[0], byDid[tps[0].did]), Label(actions, tps[0].did))] + rest.value)
  }

  /** The pass fails exactly when a participant has no record, and reports
      the first such participant; otherwise it emits one row per participant,
      in order, with the record's fields and the participant's label. */
  lemma {:induction false} AnnotateAllMeaning(tps: seq<TrialParticipant>, byDid: map<string, TrialParticipant>,
                                              actions: ActionIndex)
    ensures var r := AnnotateAll(tps, byDid, actions);
      && (r.Failure? <==> exists i :: 0 <= i < |tps| && tps[i].did !in byDid)
      && (r.Failure? ==> exists i :: (0 <= i < |tps| && tps[i].did == r.error && tps[i].did !in byDid
            && forall j :: 0 <= j < i ==> tps[j].did in byDid))
      && (r.Success? ==> |r.value| == |tps| && forall i :: 0 <= i < |tps| ==>
            r.value[i] == ParticipantStatus(Enrich(tps[i], byDid[tps[i].did]), Label(actions, tps[i].did)))
    decreases |tps|
  {
    if tps != [] && tps[0].did in byDid {
      var tail := tps[1..];
      AnnotateAllMeaning(tail, byDid, actions);
      var rest := AnnotateAll(tail, byDid, actions);
      if rest.Failure? {
        var i :| 0 <= i < |tail| && tail[i].did == rest.error && tail[i].did !in byDid
          && forall j :: 0 <= j < i ==> tail[j].did in byDid;
        assert tps[i + 1] == tail[i];
        forall j | 0 <= j < i + 1 ensures tps[j].did in byDid {
          if j > 0 { assert tps[j] == tail[j - 1]; }
        }
      } else {
        forall i | 0 <= i < |tps| ensures tps[i].did in byDid {
          if i > 0 { assert tps[i] == tail[i - 1]; }
        }
      }
    }
  }

  /** The volatile participants after the pass: every trial participant the
      pass reached has the record's fields written into it; the pass stops at
      the first one without a record. */
  function WriteBack(tps: seq<TrialParticipant>, trialId: Option<string>, byDid: map<string, TrialParticipant>)
    : (r: seq<TrialParticipant>)
    ensures |r| == |tps|
    ensures forall i :: 0 <= i < |tps| ==>
      r[i].did == tps[i].did && r[i].trialNumber == tps[i].trialNumber && r[i].status == tps[i].status
    ensures forall i :: 0 <= i < |tps| && tps[i].trialNumber != trialId ==> r[i] == tps[i]
    decreases |tps|
  {
    if tps == [] then []
    else if tps[0].trialNumber != trialId then [tps[0]] + WriteBack(tps[1..], trialId, byDid)
    else if tps[0].did !in byDid then tps
    else [Enrich(tps[0], byDid[tps[0].did])] + WriteBack(tps[1..], trialId, byDid)
  }

  /** Where the pass stops: a trial participant is enriched when it and every
      trial participant before it has a record; from the first trial
      participant without a record on, every participant keeps what it had. */
  lemma {:induction false} WriteBackStops(tps: seq<TrialParticipant>, trialId: Option<string>,
                                          byDid: map<string, TrialParticipant>)
    ensures var r := WriteBack(tps, trialId, byDid);
      forall i :: 0 <= i < |tps| && tps[i].trialNumber == trialId
        && (forall j :: 0 <= j <= i && tps[j].trialNumber == trialId ==> tps[j].did in byDid)
        ==> r[i] == Enrich(tps[i], byDid[tps[i].did])
    ensures var r := WriteBack(tps, trialId, byDid);
      forall i, k :: 0 <= k <= i < |tps| && tps[k].trialNumber == trialId && tps[k].did !in byDid
        ==> r[i] == tps[i]
    decreases |tps|
  {
    if tps != [] && !(tps[0].trialNumber == trialId && tps[0].did !in byDid) {
      var tail := tps[1..];
      var r, rest := WriteBack(tps, trialId, byDid), WriteBack(tail, trialId, byDid);
      WriteBackStops(tail, trialId, byDid);
      assert r[1..] == rest;
      forall i | 0 < i < |tps| && tps[i].trialNumber == trialId
        && (forall j :: 0 <= j <= i && tps[j].trialNumber == trialId ==> tps[j].did in byDid)
        ensures r[i] == Enrich(tps[i], byDid[tps[i].did])
      {
        assert tps[i] == tail[i - 1] && r[i] == rest[i - 1];
        forall j | 0 <= j <= i - 1 && tail[j].trialNumber == trialId ensures tail[j].did in byDid {
          assert tail[j] == tps[j + 1];
        }
      }
      forall i, k | 0 <= k <= i < |tps| && tps[k].trialNumber == trialId && tps[k].did !in byDid
        ensures r[i] == tps[i]
      {
        assert k > 0 && tail[k - 1] == tps[k];
        assert tps[i] == tail[i - 1] && r[i] == rest[i - 1];
      }
    }
  }

  function Participants(rows: seq<ParticipantStatus>): seq<TrialParticipant>
  {
    seq(|rows|, i requires 0 <= i < |rows| => rows[i].participant)
  }

  lemma ParticipantsCons(row: ParticipantStatus, rows: seq<ParticipantStatus>)
    ensures Participants([row] + rows) == [row.participant] + Participants(rows)
  {
    var a, b := Participants([row] + rows), [row.participant] + Participants(rows);
    assert |a| == |b|;
    forall i | 0 <= i < |a| ensures a[i] == b[i] {
      if i > 0 {
        assert ([row] + rows)[i] == rows[i - 1];
      }
    }
  }

  lemma AnnotateCons(tp: TrialParticipant, rest: seq<TrialParticipant>,
                     byDid: map<string, TrialParticipant>, actions: ActionIndex)
    requires AnnotateAll([tp] + rest, byDid, actions).Success?
    ensures tp.did in byDid && AnnotateAll(rest, byDid, actions).Success?
    ensures AnnotateAll([tp] + rest, byDid, actions).value
         == [ParticipantStatus(Enrich(tp, byDid[tp.did]), Label(actions, tp.did))]
            + AnnotateAll(rest, byDid, actions).value
  {
    assert ([tp] + rest)[1..] == rest;
  }

  /** On a successful pass each emitted row is a copy of the volatile
      participant taken after the record's fields were written into it. */
  lemma {:induction false} RowsCopyWrittenBack(tps: seq<TrialParticipant>, trialId: Option<string>,
                                               byDid: map<string, TrialParticipant>, actions: ActionIndex)
    requires AnnotateAll(OfTrial(tps, trialId), byDid, actions).Success?
    ensures Participants(AnnotateAll(OfTrial(tps, trialId), byDid, actions).value)
         == OfTrial(WriteBack(tps, trialId, byDid), trialId)
    decreases |tps|
  {
    if tps != [] {
      var tp, tail := tps[0], tps[1..];
      assert tps == [tp] + tail;
      OfTrialCons(tp, tail, trialId);
      if tp.trialNumber == trialId {
        AnnotateCons(tp, OfTrial(tail, trialId), byDid, actions);
        RowsCopyWrittenBack(tail, trialId, byDid, actions);
        var rows := AnnotateAll(OfTrial(tail, trialId), byDid, actions).value;
        var row := ParticipantStatus(Enrich(tp, byDid[tp.did]), Label(actions, tp.did));
        ParticipantsCons(row, rows);
        assert WriteBack(tps, trialId, byDid) == [Enrich(tp, byDid[tp.did])] + WriteBack(tail, trialId, byDid);
        OfTrialCons(Enrich(tp, byDid[tp.did]), WriteBack(tail, trialId, byDid), trialId);
      } else {
        assert OfTrial(tps, trialId) == OfTrial(tail, trialId);
        RowsCopyWrittenBack(tail, trialId, byDid, actions);
        assert WriteBack(tps, trialId, byDid) == [tp] + WriteBack(tail, trialId, byDid);
        OfTrialCons(tp, WriteBack(tail, trialId, byDid), trialId);
      }
    }
  }

  /** `_getTrialParticipantsMappedWithActionRequired`, with the repository
      records and the HCO DSU's volatile participants as parameters. Returns
      the rows and the volatile participants as the pass leaves them. */
  method MapWithActionRequired(records: seq<TrialParticipant>, volatileTps: seq<TrialParticipant>,
                               trialId: Option<string>, actions: ActionIndex)
    returns (r: Result<seq<ParticipantStatus>, string>, updated: seq<TrialParticipant>)
    ensures records == [] ==> r == Success([]) && updated == volatileTps
    ensures records != [] ==>
      r == AnnotateAll(OfTrial(volatileTps, trialId), ByDid(records), actions)
      && updated == WriteBack(volatileTps, trialId, ByDid(records))
  {
    if |records| == 0 {
      return Success([]), volatileTps;
    }
    var tpsMappedByDID := MapByDid(records);
    updated := WriteBack(volatileTps, trialId, tpsMappedByDID);
    r := AnnotateAll(OfTrial(volatileTps, trialId), tpsMappedByDID, actions);
  }

  /** The rows for a non-empty repository: one per trial participant, in
      order, with the fields of the last record of the same did and the label
      of its last action; the pass fails exactly when a record is missing. */
  lemma RowsForTrial(records: seq<TrialParticipant>, volatileTps: seq<TrialParticipant>,
                     trialId: Option<string>, actions: ActionIndex)
    requires records != []
    ensures var tps := OfTrial(volatileTps, trialId);
      var r := AnnotateAll(tps, ByDid(records), actions);
      (r.Failure? <==> exists i :: 0 <= i < |tps| && forall j :: 0 <= j < |records| ==> records[j].did != tps[i].did)
      && (r.Success? ==> |r.value| == |tps| && forall i :: 0 <= i < |tps| ==>
            r.value[i].participant.did == tps[i].did
            && r.value[i].actionNeeded == Label(actions, tps[i].did)
            && exists j :: (0 <= j < |records| && records[j].did == tps[i].did
                 && r.value[i].participant == Enrich(tps[i], records[j])
                 && forall l :: j < l < |records| ==> records[l].did != tps[i].did))
  {
    var tps := OfTrial(volatileTps, trialId);
    AnnotateAllMeaning(tps, ByDid(records), actions);
    forall i | 0 <= i < |tps|
      ensures tps[i].did in ByDid(records) <==> exists j :: 0 <= j < |records| && records[j].did == tps[i].did
      ensures tps[i].did in ByDid(records) ==> exists j :: (0 <= j < |records| && records[j] == ByDid(records)[tps[i].did]
        && records[j].did == tps[i].did && forall l :: j < l < |records| ==> records[l].did != tps[i].did)
    {
      ByDidLastWins(records, tps[i].did);
    }
  }
}
