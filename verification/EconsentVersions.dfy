/** The history of one econsent's versions (`initTrialAndConsent`): every
    version is copied with default approval columns, which its actions then
    overwrite one by one, so that the last action touching a column decides
    it. */
module EconsentVersions {
  import opened Records

  /** A version with its approval columns. `original` keeps every field of
      the version; a `tsDeclined` the version already had survives unless a
      `Declined` action overwrites it. */
  datatype AnnotatedVersion = AnnotatedVersion(
    original: Version,
    tpApproval: string,
    hcpApproval: string,
    tpWithdraw: string,
    tsDeclined: Option<string>)

  /** The columns an action can write. */
  datatype Column = TpApproval | HcpApproval | TpWithdraw | TsDeclined

  function Get(av: AnnotatedVersion, c: Column): Option<string>
  {
    match c
    case TpApproval => Some(av.tpApproval)
    case HcpApproval => Some(av.hcpApproval)
    case TpWithdraw => Some(av.tpWithdraw)
    case TsDeclined => av.tsDeclined
  }

  /** The value action `a` writes into column `c`, if it writes one: the
      decision table of the action `switch`, read column by column. Only the
      exact name `Declined` touches `tsDeclined`. */
  function Writes(a: Action, c: Column): Option<string>
  {
    match c
    case TpApproval => if a.name == "sign" then Some(a.toShowDate) else None
    case HcpApproval =>
      if a.name == "sign" then Some("Required")
      else if a.name == "withdraw-intention" then Some("Contact TP")
      else None
    case TpWithdraw =>
      if a.name == "withdraw" then Some("TP Withdraw")
      else if a.name == "withdraw-intention" then Some("Intention")
      else None
    case TsDeclined => if a.name == "Declined" then Some("Declined") else None
  }

  /** The copy made before the loop: the three columns start at `"-"`. */
  function Defaults(v: Version): (r: AnnotatedVersion)
    ensures r.original == v && r.tsDeclined == v.tsDeclined
    ensures forall c :: c != TsDeclined ==> Get(r, c) == Some("-")
  {
    AnnotatedVersion(v, "-", "-", "-", v.tsDeclined)
  }

  /** One iteration of the action `switch`: it writes exactly the columns the
      table gives for the action and leaves every other column and the
      version's own fields as they were. */
  function Apply(av: AnnotatedVersion, a: Action): (r: AnnotatedVersion)
    ensures r.original == av.original
    ensures forall c :: Get(r, c) == if Writes(a, c).Some? then Writes(a, c) else Get(av, c)
  {
    if a.name == "sign" then av.(tpApproval := a.toShowDate, hcpApproval := "Required")
    else if a.name == "withdraw" then av.(tpWithdraw := "TP Withdraw")
    else if a.name == "withdraw-intention" then av.(hcpApproval := "Contact TP", tpWithdraw := "Intention")
    else if a.name == "Declined" then av.(tsDeclined := Some("Declined"))
    else av
  }

  /** The actions applied in list order. */
  function ApplyAll(av: AnnotatedVersion, acts: seq<Action>): (r: AnnotatedVersion)
    decreases |acts|
  {
    if acts == [] then av else Apply(ApplyAll(av, acts[..|acts| - 1]), acts[|acts| - 1])
  }

  /** The loop never loses a field of the version. */
  lemma {:induction false} ApplyAllKeepsOriginal(av: AnnotatedVersion, acts: seq<Action>)
    ensures ApplyAll(av, acts).original == av.original
    decreases |acts|
  {
    if acts != [] {
      ApplyAllKeepsOriginal(av, acts[..|acts| - 1]);
    }
  }

  /** A column no action writes keeps its value. */
  lemma {:induction false} UntouchedColumnKept(av: AnnotatedVersion, acts: seq<Action>, c: Column)
    requires forall j :: 0 <= j < |acts| ==> Writes(acts[j], c).None?
    ensures Get(ApplyAll(av, acts), c) == Get(av, c)
    decreases |acts|
  {
    if acts != [] {
      UntouchedColumnKept(av, acts[..|acts| - 1], c);
    }
  }

  /** Last writer wins: a column holds what the last action touching it wrote. */
  lemma {:induction false} LastWriterWins(av: AnnotatedVersion, acts: seq<Action>, c: Column, i: nat)
    requires i < |acts| && Writes(acts[i], c).Some?
    requires forall j :: i < j < |acts| ==> Writes(acts[j], c).None?
    ensures Get(ApplyAll(av, acts), c) == Writes(acts[i], c)
    decreases |acts|
  {
    var init := acts[..|acts| - 1];
    if i < |acts| - 1 {
      LastWriterWins(av, init, c, i);
    }
  }

  /** The annotation of one version: defaults, then the actions (if the list
      is defined), then the econsent-level HCO date when the version carries
      an `hcoSign`. Reading the date of an undefined econsent `hcoSign` fails. */
  function Annotation(v: Version, consentHcoSign: Option<HcoSign>): Result<AnnotatedVersion, string>
  {
    var looped := if v.actions.Some? then ApplyAll(Defaults(v), v.actions.value) else Defaults(v);
    if v.hcoSign.None? then Success(looped)
    else if consentHcoSign.None? then Failure(v.version)
    else Success(looped.(hcpApproval := consentHcoSign.value.toShowDate))
  }

  /** The annotation fails only on the missing econsent `hcoSign`; it keeps
      the version's fields, lets the HCO date override `hcpApproval`, and
      otherwise takes every column from the last action that writes it. */
  lemma AnnotationMeaning(v: Version, consentHcoSign: Option<HcoSign>, c: Column)
    ensures Annotation(v, consentHcoSign).Failure? <==> v.hcoSign.Some? && consentHcoSign.None?
    ensures var r := Annotation(v, consentHcoSign);
      r.Success? ==> r.value.original == v
    ensures var r := Annotation(v, consentHcoSign);
      r.Success? && v.hcoSign.Some? ==> r.value.hcpApproval == consentHcoSign.value.toShowDate
    ensures var r := Annotation(v, consentHcoSign);
      var acts := if v.actions.Some? then v.actions.value else [];
      r.Success? && (c != HcpApproval || v.hcoSign.None?) ==>
        Get(r.value, c) == if exists i :: 0 <= i < |acts| && Writes(acts[i], c).Some?
                           then Writes(acts[LastWriter(acts, c)], c)
                           else Get(Defaults(v), c)
  {
    var acts := if v.actions.Some? then v.actions.value else [];
    assert v.actions.None? ==> ApplyAll(Defaults(v), acts) == Defaults(v);
    ApplyAllKeepsOriginal(Defaults(v), acts);
    if exists i :: 0 <= i < |acts| && Writes(acts[i], c).Some? {
      LastWriterWins(Defaults(v), acts, c, LastWriter(acts, c));
    } else {
      UntouchedColumnKept(Defaults(v), acts, c);
    }
  }

  /** The index of the last action that writes column `c`. */
  function LastWriter(acts: seq<Action>, c: Column): (i: nat)
    requires exists i :: 0 <= i < |acts| && Writes(acts[i], c).Some?
    ensures i < |acts| && Writes(acts[i], c).Some?
    ensures forall j :: i < j < |acts| ==> Writes(acts[j], c).None?
    decreases |acts|
  {
    if Writes(acts[|acts| - 1], c).Some? then |acts| - 1
    else
      var init := acts[..|acts| - 1];
      assert exists i :: 0 <= i < |init| && Writes(init[i], c).Some? by {
        var i :| 0 <= i < |acts| && Writes(acts[i], c).Some?;
        assert init[i] == acts[i];
      }
      var i := LastWriter(init, c);
      assert acts[i] == init[i];
      i
  }

  /** The `map` callback for one version, as the loop that overwrites the
      columns field by field. */
  method AnnotateVersion(v: Version, consentHcoSign: Option<HcoSign>) returns (r: Result<AnnotatedVersion, string>)
    ensures r == Annotation(v, consentHcoSign)
  {
    var econsentVersion := AnnotatedVersion(v, "-", "-", "-", v.tsDeclined);
    if v.actions.Some? {
      var acts := v.actions.value;
      var i := 0;
      while i < |acts|
        invariant 0 <= i <= |acts|
        invariant econsentVersion == ApplyAll(Defaults(v), acts[..i])
      {
        var action := acts[i];
        assert acts[..i + 1][..i] == acts[..i];
        if action.name == "sign" {
          econsentVersion := econsentVersion.(tpApproval := action.toShowDate);
          econsentVersion := econsentVersion.(hcpApproval := "Required");
        } else if action.name == "withdraw" {
          econsentVersion := econsentVersion.(tpWithdraw := "TP Withdraw");
        } else if action.name == "withdraw-intention" {
          econsentVersion := econsentVersion.(hcpApproval := "Contact TP");
          econsentVersion := econsentVersion.(tpWithdraw := "Intention");
        } else if action.name == "Declined" {
          econsentVersion := econsentVersion.(tsDeclined := Some("Declined"));
        }
        i := i + 1;
      }
      assert acts[..i] == acts;
    }
    if v.hcoSign.Some? {
      if consentHcoSign.None? {
        return Failure(v.version);
      }
      econsentVersion := econsentVersion.(hcpApproval := consentHcoSign.value.toShowDate);
    }
    r := Success(econsentVersion);
  }

  /** The annotated versions of an econsent, as the `map` was evidently meant
      to produce them: undefined when `versions` is, otherwise one annotation
      per version, in order; the first version that cannot be annotated stops
      the `map`. */
  function AnnotateAll(data: Econsent): (r: Result<Option<seq<AnnotatedVersion>>, string>)
    ensures data.versions.None? ==> r == Success(None)
    ensures r.Failure? <==> data.versions.Some? && data.hcoSign.None?
                            && exists i :: 0 <= i < |data.versions.value| && data.versions.value[i].hcoSign.Some?
    ensures r.Success? && data.versions.Some? ==>
      r.value.Some? && |r.value.value| == |data.versions.value|
      && forall i :: 0 <= i < |data.versions.value| ==>
           Annotation(data.versions.value[i], data.hcoSign) == Success(r.value.value[i])
  {
    match data.versions
    case None => Success(None)
    case Some(vs) =>
      var each := AnnotateEach(vs, data.hcoSign);
      if each.Failure? then Failure(each.error) else Success(Some(each.value))
  }

  function AnnotateEach(vs: seq<Version>, consentHcoSign: Option<HcoSign>): (r: Result<seq<AnnotatedVersion>, string>)
    ensures r.Failure? <==> consentHcoSign.None? && exists i :: 0 <= i < |vs| && vs[i].hcoSign.Some?
    ensures r.Success? ==>
      |r.value| == |vs| && forall i :: 0 <= i < |vs| ==> Annotation(vs[i], consentHcoSign) == Success(r.value[i])
    decreases |vs|
  {
    if vs == [] then Success([])
    else
      var head := Annotation(vs[0], consentHcoSign);
      if head.Failure? then Failure(head.error)
      else
        var rest := AnnotateEach(vs[1..], consentHcoSign);
        if rest.Failure? then
          assert exists i :: 0 <= i < |vs| && vs[i].hcoSign.Some? by {
            var i :| 0 <= i < |vs| - 1 && vs[1..][i].hcoSign.Some?;
            assert vs[i + 1] == vs[1..][i];
          }
          Failure(rest.error)
        else
          var r := [head.value] + rest.value;
          assert forall i :: 1 <= i < |vs| ==> vs[i] == vs[1..][i - 1] && r[i] == rest.value[i - 1];
          Success(r)
  }

  /** What `initTrialAndConsent` leaves in `model.versions`: the `map`
      callback returns nothing, so every entry is `undefined` (`None`); the
      annotations are computed and dropped. */
  function VersionsAsWritten(data: Econsent): (r: Result<Option<seq<Option<AnnotatedVersion>>>, string>)
    ensures r.Failure? <==> AnnotateAll(data).Failure?
    ensures data.versions.None? ==> r == Success(None)
    ensures r.Success? && data.versions.Some? ==>
      r.value.Some? && |r.value.value| == |data.versions.value|
      && forall i :: 0 <= i < |r.value.value| ==> r.value.value[i].None?
  {
    match AnnotateAll(data)
    case Failure(e) => Failure(e)
    case Success(None) => Success(None)
    case Success(Some(annotated)) => Success(Some(seq(|annotated|, i => None)))
  }

  /** A signed version shows its approval date in the intended annotation,
      and nothing at all in what the controller stores. */
  lemma SignedVersionIsDropped()
    ensures var sign := Action("did:tp:1", "sign", "tp", "12/03/2022");
      var v := Version("ssi:attachment", "1", "2022-03-12", Some([sign]), None, None);
      var data := Econsent("uid-1", "ssi:econsent", "ICF", "Mandatory", Some([v]), None);
      && AnnotateAll(data) == Success(Some([AnnotatedVersion(v, "12/03/2022", "Required", "-", None)]))
      && VersionsAsWritten(data) == Success(Some([None]))
  {
    var sign := Action("did:tp:1", "sign", "tp", "12/03/2022");
    var v := Version("ssi:attachment", "1", "2022-03-12", Some([sign]), None, None);
    assert [sign][..0] == [];
    var av := AnnotatedVersion(v, "12/03/2022", "Required", "-", None);
    assert ApplyAll(Defaults(v), [sign]) == av;
    assert Annotation(v, None) == Success(av);
    assert [v][1..] == [];
    assert AnnotateEach([], None) == Success([]);
    assert [av] + [] == [av];
    assert AnnotateEach([v], None) == Success([av]);
    var dropped: seq<Option<AnnotatedVersion>> := seq(1, i => None);
    assert dropped == [None];
  }
}
