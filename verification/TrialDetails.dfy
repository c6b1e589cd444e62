/** The trial details page: the trial's participants counted by status, its
    econsents with their versions tagged by econsent, the site-status toggle
    and the choice of the trial's site. */
module TrialDetails {
  import opened Records

  /** A trial of the HCO DSU; `{}` when no trial matched, so every field may
      be undefined. */
  datatype Trial = Trial(uid: Option<string>, id: Option<string>, keySSI: Option<string>)

  const EmptyTrial := Trial(None, None, None)

  /** A site of the site service. */
  datatype Site = Site(trialKeySSI: Option<string>, status: string)

  /** The four participant status constants of the shared services library;
      their values are not part of this model, so they are parameters. */
  datatype StatusConstants = StatusConstants(enrolled: string, screened: string, withdraw: string, declined: string)
  {
    predicate Distinct() {
      enrolled != screened && enrolled != withdraw && enrolled != declined
      && screened != withdraw && screened != declined && withdraw != declined
    }
  }

  /** The numeric fields of `model.subjects`. */
  datatype Subjects = Subjects(planned: nat, enrolled: nat, screened: nat, withdrew: nat, declined: nat)

  /** A version spread into a new record that also carries `econsentSSI`. */
  datatype TaggedVersion = TaggedVersion(version: Version, econsentSSI: string)

  /** An econsent spread into a new record whose `versions` are tagged. */
  datatype TaggedEconsent = TaggedEconsent(
    uid: string, keySSI: string, name: string, consentType: string,
    hcoSign: Option<HcoSign>, versions: seq<TaggedVersion>)

  /** `trials.find(t => t.uid === trialSSI)`, with `{}` in place of undefined. */
  function FindTrial(trials: seq<Trial>, trialSSI: string): (t: Trial)
    ensures (forall i :: 0 <= i < |trials| ==> trials[i].uid != Some(trialSSI)) ==> t == EmptyTrial
    ensures (exists i :: 0 <= i < |trials| && trials[i].uid == Some(trialSSI)) ==>
              exists i :: 0 <= i < |trials| && trials[i] == t && t.uid == Some(trialSSI)
                          && forall j :: 0 <= j < i ==> trials[j].uid != Some(trialSSI)
    decreases |trials|
  {
    if trials == [] then EmptyTrial
    else if trials[0].uid == Some(trialSSI) then trials[0]
    else
      var t := FindTrial(trials[1..], trialSSI);
      assert forall j :: 1 <= j < |trials| ==> trials[j] == trials[1..][j - 1];
      if t.uid == Some(trialSSI) then
        assert exists i :: 0 <= i < |trials| - 1 && trials[1..][i] == t
                           && forall j :: 0 <= j < i ==> trials[1..][j].uid != Some(trialSSI);
        var i :| 0 <= i < |trials| - 1 && trials[1..][i] == t
                 && forall j :: 0 <= j < i ==> trials[1..][j].uid != Some(trialSSI);
        assert trials[i + 1] == t;
        t
      else
        t
  }

  /** `tps.filter(tp => tp.status === s)`. */
  function WithStatus(tps: seq<TrialParticipant>, s: string): (r: seq<TrialParticipant>)
    ensures |r| <= |tps|
    ensures forall p :: p in r <==> p in tps && p.status == s
    decreases |tps|
  {
    if tps == [] then []
    else
      (if tps[0].status == s then [tps[0]] else []) + WithStatus(tps[1..], s)
  }

  /** Every participant with the status is kept as often as it occurs, and no other, so the
      length of the filter is the number of participants with that status. */
  lemma {:induction false} WithStatusKeepsEveryOccurrence(tps: seq<TrialParticipant>, s: string)
    ensures forall p :: multiset(WithStatus(tps, s))[p] ==
              if p.status == s then multiset(tps)[p] else 0
    decreases |tps|
  {
    if tps != [] {
      assert tps == [tps[0]] + tps[1..];
      WithStatusKeepsEveryOccurrence(tps[1..], s);
    }
  }

  /** The status filter keeps the order and every occurrence: filtering a
      concatenation concatenates the filtered parts, and a single participant
      is kept exactly when it has the status. */
  lemma {:induction false} WithStatusAppend(a: seq<TrialParticipant>, b: seq<TrialParticipant>, s: string)
    ensures WithStatus(a + b, s) == WithStatus(a, s) + WithStatus(b, s)
    ensures forall x :: WithStatus([x], s) == if x.status == s then [x] else []
    decreases |a|
  {
    forall x ensures WithStatus([x], s) == if x.status == s then [x] else [] {
      assert [x][1..] == [];
    }
    if a == [] {
      assert a + b == b;
    } else {
      var x, t := a[0], a[1..];
      assert a == [x] + t && a + b == [x] + (t + b);
      WithStatusAppend(t, b, s);
      WithStatusAppendStep(x, t, b, s);
    }
  }

  lemma WithStatusAppendStep(x: TrialParticipant, t: seq<TrialParticipant>, b: seq<TrialParticipant>, s: string)
    requires WithStatus(t + b, s) == WithStatus(t, s) + WithStatus(b, s)
    ensures WithStatus([x] + (t + b), s) == WithStatus([x] + t, s) + WithStatus(b, s)
  {
    var head := if x.status == s then [x] else [];
    var ft, fb := WithStatus(t, s), WithStatus(b, s);
    calc {
      WithStatus([x] + (t + b), s);
    == { WithStatusCons(x, t + b, s); }
      head + WithStatus(t + b, s);
    ==
      head + (ft + fb);
    == { SeqAssoc(head, ft, fb); }
      (head + ft) + fb;
    == { WithStatusCons(x, t, s); }
      WithStatus([x] + t, s) + fb;
    }
  }

  /** Filtering a list that starts with `x`. */
  lemma WithStatusCons(x: TrialParticipant, rest: seq<TrialParticipant>, s: string)
    ensures WithStatus([x] + rest, s) == (if x.status == s then [x] else []) + WithStatus(rest, s)
  {
    assert ([x] + rest)[1..] == rest;
  }


  /** The subject counts of a trial's participants. */
  function CountSubjects(tps: seq<TrialParticipant>, c: StatusConstants): Subjects
  {
    Subjects(|tps|, |WithStatus(tps, c.enrolled)|, |WithStatus(tps, c.screened)|,
             |WithStatus(tps, c.withdraw)|, |WithStatus(tps, c.declined)|)
  }

  /** No participant has two statuses, so with distinct constants the four
      counts together never exceed the planned count (and each alone never does). */
  lemma {:induction false} SubjectCountsWithinPlanned(tps: seq<TrialParticipant>, c: StatusConstants)
    ensures var n := CountSubjects(tps, c);
      n.enrolled <= n.planned && n.screened <= n.planned && n.withdrew <= n.planned && n.declined <= n.planned
    ensures c.Distinct() ==>
      var n := CountSubjects(tps, c);
      n.enrolled + n.screened + n.withdrew + n.declined <= n.planned
    decreases |tps|
  {
    if tps != [] {
      SubjectCountsWithinPlanned(tps[1..], c);
    }
  }

  /** `versions.map(v => ({...v, econsentSSI: uid}))`. */
  function TagVersions(vs: seq<Version>, uid: string): (r: seq<TaggedVersion>)
    ensures |r| == |vs|
    ensures forall j :: 0 <= j < |vs| ==> r[j].version == vs[j] && r[j].econsentSSI == uid
  {
    seq(|vs|, j requires 0 <= j < |vs| => TaggedVersion(vs[j], uid))
  }

  /** The econsents callback of `_initTrial`: each econsent is spread with its
      versions tagged. `econsent.versions.map` throws on an econsent without
      versions, which ends the callback; the failure names the first such
      econsent. */
  function TagEconsents(ecs: seq<Econsent>): (r: Result<seq<TaggedEconsent>, string>)
    ensures r.Failure? <==> exists i :: 0 <= i < |ecs| && ecs[i].versions.None?
    ensures r.Failure? ==>
              exists i :: 0 <= i < |ecs| && ecs[i].versions.None? && r.error == ecs[i].uid
                          && forall j :: 0 <= j < i ==> ecs[j].versions.Some?
    ensures r.Success? ==>
              |r.value| == |ecs|
              && forall i :: 0 <= i < |ecs| ==>
                   r.value[i].uid == ecs[i].uid && |r.value[i].versions| == |ecs[i].versions.value|
                   && forall j :: 0 <= j < |r.value[i].versions| ==> r.value[i].versions[j].econsentSSI == ecs[i].uid
    decreases |ecs|
  {
    if ecs == [] then Success([])
    else if ecs[0].versions.None? then Failure(ecs[0].uid)
    else
      var e := ecs[0];
      assert forall j :: 1 <= j < |ecs| ==> ecs[j] == ecs[1..][j - 1];
      match TagEconsents(ecs[1..])
      case Failure(err) =>
        var i :| 0 <= i < |ecs| - 1 && ecs[1..][i].versions.None? && err == ecs[1..][i].uid
                 && forall j :: 0 <= j < i ==> ecs[1..][j].versions.Some?;
        assert ecs[i + 1].versions.None?;
        Failure(err)
      case Success(rest) =>
        Success([TaggedEconsent(e.uid, e.keySSI, e.name, e.consentType, e.hcoSign, TagVersions(e.versions.value, e.uid))] + rest)
  }

  /** The econsent a tagged record was spread from. */
  function Untag(t: TaggedEconsent): Econsent
  {
    Econsent(t.uid, t.keySSI, t.name, t.consentType,
             Some(seq(|t.versions|, j requires 0 <= j < |t.versions| => t.versions[j].version)), t.hcoSign)
  }

  /** Tagging keeps every field of every econsent and of every version: taking
      the tags off gives the econsents back. */
  lemma {:induction false} TaggingKeepsFields(ecs: seq<Econsent>)
    requires TagEconsents(ecs).Success?
    ensures |TagEconsents(ecs).value| == |ecs|
    ensures forall i :: 0 <= i < |ecs| ==> Untag(TagEconsents(ecs).value[i]) == ecs[i]
    decreases |ecs|
  {
    if ecs != [] {
      var e := ecs[0];
      var rest := TagEconsents(ecs[1..]);
      TaggingKeepsFields(ecs[1..]);
      var t := TagEconsents(ecs).value;
      assert t == [TaggedEconsent(e.uid, e.keySSI, e.name, e.consentType, e.hcoSign, TagVersions(e.versions.value, e.uid))] + rest.value;
      assert Untag(t[0]).versions.value == e.versions.value;
      forall i | 1 <= i < |ecs|
        ensures Untag(t[i]) == ecs[i]
      {
        assert t[i] == rest.value[i - 1];
      }
    }
  }

  /** The status a confirmed toggle writes into the site: it tests
      `model.status`, which this controller never assigns. */
  function ToggledStatus(modelStatus: Option<string>): (r: string)
    ensures r == "Active" <==> modelStatus == Some("On Hold")
    ensures r == "On Hold" <==> modelStatus != Some("On Hold")
  {
    if modelStatus == Some("On Hold") then "Active" else "On Hold"
  }

  /** `sites.filter(site => site.trialKeySSI === keySSI)[0]`. */
  function FirstSiteFor(sites: seq<Site>, keySSI: Option<string>): (r: Option<Site>)
    ensures r.None? <==> forall i :: 0 <= i < |sites| ==> sites[i].trialKeySSI != keySSI
    ensures r.Some? ==>
              exists i :: 0 <= i < |sites| && sites[i] == r.value && r.value.trialKeySSI == keySSI
                          && forall j :: 0 <= j < i ==> sites[j].trialKeySSI != keySSI
    decreases |sites|
  {
    if sites == [] then None
    else if sites[0].trialKeySSI == keySSI then Some(sites[0])
    else
      var r := FirstSiteFor(sites[1..], keySSI);
      assert forall j :: 1 <= j < |sites| ==> sites[j] == sites[1..][j - 1];
      if r.Some? then
        var i :| 0 <= i < |sites| - 1 && sites[1..][i] == r.value
                 && forall j :: 0 <= j < i ==> sites[1..][j].trialKeySSI != keySSI;
        assert sites[i + 1] == r.value;
        r
      else
        r
  }

  /** The page model of `TrialDetailsController`. */
  class TrialDetailsModel {
    const trialSSI: string
    var trial: Trial
    var trialParticipants: seq<TrialParticipant>
    /** None while the counts still hold their initial blank strings. */
    var subjects: Option<Subjects>
    var econsents: seq<TaggedEconsent>
    var econsentsSize: nat
    var site: Option<Site>
    /** `model.status`: read by the toggle, assigned nowhere in this controller. */
    var status: Option<string>

    constructor (trialSSI: string)
      ensures this.trialSSI == trialSSI && trial == EmptyTrial && trialParticipants == []
      ensures subjects == None && econsents == [] && econsentsSize == 0 && site == None && status == None
    {
      this.trialSSI := trialSSI;
      trial, trialParticipants, subjects := EmptyTrial, [], None;
      econsents, econsentsSize, site, status := [], 0, None, None;
    }

    /** The synchronous part of `_initTrial`, with the HCO DSU's trials and the
        participant repository's records as parameters. */
    method InitTrial(volatileTrials: seq<Trial>, repository: seq<TrialParticipant>, c: StatusConstants)
      modifies this`trial, this`trialParticipants, this`subjects
      ensures trial == FindTrial(volatileTrials, trialSSI)
      ensures trialParticipants == OfTrial(repository, trial.id)
      ensures subjects == Some(CountSubjects(trialParticipants, c))
    {
      trial := FindTrial(volatileTrials, trialSSI);
      trialParticipants := OfTrial(repository, trial.id);
      subjects := Some(CountSubjects(trialParticipants, c));
    }

    /** The econsents callback of `_initTrial`: on success both fields are
        assigned; when the mapping throws neither is. */
    method ReceiveEconsents(ecs: seq<Econsent>)
      modifies this`econsents, this`econsentsSize
      ensures TagEconsents(ecs).Success? ==> econsents == TagEconsents(ecs).value && econsentsSize == |ecs|
      ensures TagEconsents(ecs).Failure? ==> econsents == old(econsents) && econsentsSize == old(econsentsSize)
    {
      match TagEconsents(ecs)
      case Success(tagged) =>
        econsents := tagged;
        econsentsSize := |ecs|;
      case Failure(_) =>
    }

    /** A click on the status toggle, with the user's answer to the
        confirmation modal. The modal's question reads the site's status, so an
        undefined site throws before the modal opens, whatever the answer; a
        confirmed toggle on a defined site writes the toggled status. */
    method ChangeStatus(confirmed: bool) returns (failed: bool)
      modifies this`site
      ensures failed <==> old(site).None?
      ensures !confirmed || failed ==> site == old(site)
      ensures confirmed && old(site).Some? ==> site == Some(old(site).value.(status := ToggledStatus(status)))
    {
      failed := site.None?;
      if !failed && confirmed {
        site := Some(site.value.(status := ToggledStatus(status)));
      }
    }

    /** The sites callback of `_getSite`; `None` stands for a missing list. */
    method GetSite(sites: Option<seq<Site>>)
      modifies this`site
      ensures sites.None? || sites.value == [] ==> site == old(site)
      ensures sites.Some? && sites.value != [] ==> site == FirstSiteFor(sites.value, trial.keySSI)
    {
      if sites.Some? && |sites.value| > 0 {
        site := FirstSiteFor(sites.value, trial.keySSI);
      }
    }
  }

  /** As long as `model.status` stays unassigned, every confirmed toggle puts
      the site on hold, whatever its current status. */
  lemma UnassignedStatusHolds(s: Site)
    ensures s.(status := ToggledStatus(None)).status == "On Hold"
  {
  }
}
