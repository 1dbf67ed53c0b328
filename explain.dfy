/**
 * The explanation generator: the band headline, the two strongest drivers
 * as bullets, a note when VPB and IPB disagree by a full standard
 * deviation, and the status and exclusion warnings, in that order. The
 * wording of the templates is not modelled: each line names its kind and
 * the values it shows.
 */
module Explain {
  import opened Wrappers
  import opened Numeric
  import opened Constants
  import opened Types
  import opened Composite

  /** The arrow after a driver's z-score. */
  function ArrowOf(z: real): (a: Arrow)
    ensures a == Up <==> z > 0.0
    ensures a == Down <==> z < 0.0
    ensures a == Flat <==> z == 0.0
  {
    if z > 0.0 then Up else if z < 0.0 then Down else Flat
  }

  /** The bullet of one driver. */
  function DriverLine(c: ScoreComponent): Line
  {
    DriverBullet(c.name, c.Direction(), c.zscore, ArrowOf(c.zscore))
  }

  /** One bullet per component, in order. */
  function Bullets(top: seq<ScoreComponent>): (r: seq<Line>)
    ensures |r| == |top|
    ensures forall i :: 0 <= i < |r| ==> r[i] == DriverLine(top[i])
  {
    if top == [] then [] else [DriverLine(top[0])] + Bullets(top[1..])
  }

  /** `_format_drivers_structured` with its default of two drivers: one bullet per top driver. */
  function DriverLines(cs: seq<ScoreComponent>): seq<Line>
  {
    Bullets(TopDrivers(cs, 2))
  }

  /**
   * `_format_drivers_structured` gives min(2, |cs|) bullets, none for no
   * components, strongest |z| first; which components they are is
   * TopDriversRanked's statement.
   */
  lemma DriverLinesRanked(cs: seq<ScoreComponent>)
    ensures var r, top := DriverLines(cs), TopDrivers(cs, 2);
      && |r| == (if 2 < |cs| then 2 else |cs|)
      && (forall i :: 0 <= i < |r| ==> r[i].DriverBullet? && r[i].name == top[i].name && r[i].zscore == top[i].zscore)
      && (forall i, j :: 0 <= i < j < |r| ==> Abs(r[j].zscore) <= Abs(r[i].zscore))
  {
    var top := TopDrivers(cs, 2);
    TopDriversRanked(cs, 2);
    assert RankedByAbsZ(top);
  }

  /**
   * `_format_divergence`: no note when VPB or IPB is missing or when
   * |VPB z - IPB z| < 1; otherwise the narrow-leadership note when the gap
   * is above 1 and the broad-weakness note in every other case, a gap of
   * exactly +1 included.
   */
  function DivergenceNoteOf(cs: seq<ScoreComponent>): (r: Option<Line>)
    ensures r.None? <==>
      LastZscore(cs, "VPB").None? || LastZscore(cs, "IPB").None?
      || Abs(LastZscore(cs, "VPB").value - LastZscore(cs, "IPB").value) < VPB_IPB_DIVERGENCE_WARN
    ensures r.Some? ==>
      r.value == DivergenceNote(LastZscore(cs, "VPB").value - LastZscore(cs, "IPB").value > VPB_IPB_DIVERGENCE_WARN)
  {
    var v, p := LastZscore(cs, "VPB"), LastZscore(cs, "IPB");
    if v.None? || p.None? then None
    else
      var d := v.value - p.value;
      if Abs(d) < VPB_IPB_DIVERGENCE_WARN then None
      else Some(DivergenceNote(d > VPB_IPB_DIVERGENCE_WARN))
  }

  /** The scan of `_format_divergence`, a later VPB or IPB overwriting an earlier one. */
  method FormatDivergence(cs: seq<ScoreComponent>) returns (note: Option<Line>)
    ensures note == DivergenceNoteOf(cs)
  {
    var vpbZ, ipbZ := ScanVpbIpb(cs);
    if vpbZ.None? || ipbZ.None? {
      return None;
    }
    var divergence := vpbZ.value - ipbZ.value;
    if Abs(divergence) < VPB_IPB_DIVERGENCE_WARN {
      return None;
    }
    note := Some(DivergenceNote(divergence > VPB_IPB_DIVERGENCE_WARN));
  }

  /**
   * The note and the engine's divergence sentence disagree only at a gap
   * of exactly +1 or -1: there the note is written (as broad weakness,
   * also for +1) while the engine, which wants a gap above 1, adds no
   * sentence.
   */
  lemma NoteAtExactThreshold(cs: seq<ScoreComponent>)
    requires LastZscore(cs, "VPB").Some? && LastZscore(cs, "IPB").Some?
    ensures var d := LastZscore(cs, "VPB").value - LastZscore(cs, "IPB").value;
      && (Abs(d) > VPB_IPB_DIVERGENCE_WARN ==> DivergenceNoteOf(cs).Some?)
      && (Abs(d) == VPB_IPB_DIVERGENCE_WARN ==> DivergenceNoteOf(cs) == Some(DivergenceNote(false)))
  {
  }

  /** The band headline: every band has a non-empty template, so there always is one. */
  function HeadlineSection(band: Band): seq<Line>
  {
    [Headline(band)]
  }

  function DriversSection(cs: seq<ScoreComponent>): seq<Line>
  {
    var bullets := DriverLines(cs);
    if bullets == [] then [] else [Blank, DriversHeading] + bullets
  }

  function NoteSection(cs: seq<ScoreComponent>): seq<Line>
  {
    var note := DivergenceNoteOf(cs);
    if note.None? then [] else [Blank, note.value]
  }

  /** COMPLETE has an empty status template, so it gets no warning line. */
  function WarningSection(status: BaselineStatus, excluded: seq<string>): seq<Line>
  {
    if status == Complete && excluded == [] then []
    else
      [Blank]
      + (if status != Complete then [StatusWarning(status)] else [])
      + (if excluded != [] then [ExcludedNote(excluded)] else [])
  }

  /** The lines `generate` joins, section by section. */
  function Generated(band: Band, cs: seq<ScoreComponent>, excluded: seq<string>, status: BaselineStatus): seq<Line>
  {
    HeadlineSection(band) + DriversSection(cs) + NoteSection(cs) + WarningSection(status, excluded)
  }

  lemma AppendAssoc<T>(a: seq<T>, b: seq<T>, c: seq<T>)
    ensures a + b + c == a + (b + c)
  {
  }

  /** `generate`: appends the sections to the lines one after the other. */
  method Generate(band: Band, cs: seq<ScoreComponent>, excluded: seq<string>, status: BaselineStatus) returns (lines: seq<Line>)
    ensures lines == Generated(band, cs, excluded, status)
  {
    lines := [Headline(band)];
    var driverLines := DriverLines(cs);
    if driverLines != [] {
      AppendAssoc(lines, [Blank, DriversHeading], driverLines);
      lines := lines + [Blank, DriversHeading] + driverLines;
    }
    assert lines == HeadlineSection(band) + DriversSection(cs);
    var note := FormatDivergence(cs);
    if note.Some? {
      lines := lines + [Blank, note.value];
    }
    assert lines == HeadlineSection(band) + DriversSection(cs) + NoteSection(cs);
    lines := AppendWarnings(lines, status, excluded);
  }

  /** The last step of `generate`: a blank line, then the status warning and the exclusion line, each if there is one. */
  method AppendWarnings(lines: seq<Line>, status: BaselineStatus, excluded: seq<string>) returns (out: seq<Line>)
    ensures out == lines + WarningSection(status, excluded)
  {
    out := lines;
    if status != Complete || excluded != [] {
      out := out + [Blank];
      if status != Complete {
        out := out + [StatusWarning(status)];
      }
      if excluded != [] {
        out := out + [ExcludedNote(excluded)];
      }
    }
  }

  /** The section a line belongs to; blank lines separate sections and belong to none. */
  function SectionOf(l: Line): (k: nat)
    ensures k <= 3
  {
    match l
    case Blank => 0
    case Headline(_) => 0
    case DriversHeading => 1
    case DriverBullet(_, _, _, _) => 1
    case DivergenceNote(_) => 2
    case StatusWarning(_) => 3
    case ExcludedNote(_) => 3
  }

  /** Every line of `s` other than a blank one is in section `k`. */
  ghost predicate InSection(s: seq<Line>, k: nat)
  {
    forall i :: 0 <= i < |s| ==> s[i].Blank? || SectionOf(s[i]) == k
  }

  /** Lines in sections `j` and then `k >= j`, blanks aside, keep the section order. */
  ghost predicate SectionsOrdered(s: seq<Line>)
  {
    forall i, j :: 0 <= i < j < |s| && !s[i].Blank? && !s[j].Blank? ==> SectionOf(s[i]) <= SectionOf(s[j])
  }

  lemma OrderedAppend(s: seq<Line>, t: seq<Line>, k: nat)
    requires SectionsOrdered(s)
    requires forall i :: 0 <= i < |s| ==> s[i].Blank? || SectionOf(s[i]) <= k
    requires InSection(t, k)
    ensures SectionsOrdered(s + t)
    ensures forall i :: 0 <= i < |s + t| ==> (s + t)[i].Blank? || SectionOf((s + t)[i]) <= k
  {
    var u := s + t;
    forall i, j | 0 <= i < j < |u| && !u[i].Blank? && !u[j].Blank? ensures SectionOf(u[i]) <= SectionOf(u[j]) {
      if j < |s| {
        assert u[i] == s[i] && u[j] == s[j];
      } else if i < |s| {
        assert u[i] == s[i] && u[j] == t[j - |s|];
      } else {
        assert u[i] == t[i - |s|] && u[j] == t[j - |s|];
      }
    }
  }

  /** The kinds of line each section can hold. */
  lemma SectionKinds(cs: seq<ScoreComponent>, excluded: seq<string>, status: BaselineStatus)
    ensures InSection(DriversSection(cs), 1)
    ensures forall l | l in DriversSection(cs) :: l.Blank? || l.DriversHeading? || l.DriverBullet?
    ensures forall l | l in NoteSection(cs) :: l.Blank? || l.DivergenceNote?
    ensures forall l | l in WarningSection(status, excluded) ::
      l.Blank? || (l.StatusWarning? && status != Complete) || (l.ExcludedNote? && excluded != [])
  {
    DriverLinesRanked(cs);
  }

  /**
   * The explanation reads headline, drivers, divergence note, warnings:
   * no line of a later section comes before a line of an earlier one.
   */
  lemma GeneratedSectionsInOrder(band: Band, cs: seq<ScoreComponent>, excluded: seq<string>, status: BaselineStatus)
    ensures SectionsOrdered(Generated(band, cs, excluded, status))
  {
    var h, d, n, w := HeadlineSection(band), DriversSection(cs), NoteSection(cs), WarningSection(status, excluded);
    SectionKinds(cs, excluded, status);
    OrderedAppend(h, d, 1);
    assert InSection(n, 2);
    OrderedAppend(h + d, n, 2);
    assert InSection(w, 3);
    OrderedAppend(h + d + n, w, 3);
  }

  /** A line is in the explanation exactly when it is in one of its four sections. */
  lemma InGenerated(band: Band, cs: seq<ScoreComponent>, excluded: seq<string>, status: BaselineStatus, l: Line)
    ensures l in Generated(band, cs, excluded, status) <==>
      l in HeadlineSection(band) || l in DriversSection(cs) || l in NoteSection(cs) || l in WarningSection(status, excluded)
  {
  }

  /**
   * The headline comes first, and there is a status warning exactly when
   * the status is not COMPLETE.
   */
  lemma GeneratedWarning(band: Band, cs: seq<ScoreComponent>, excluded: seq<string>, status: BaselineStatus)
    ensures var lines := Generated(band, cs, excluded, status);
      && lines[0] == Headline(band)
      && ((exists l :: l in lines && l.StatusWarning?) <==> status != Complete)
  {
    var lines := Generated(band, cs, excluded, status);
    SectionKinds(cs, excluded, status);
    forall l | l in lines && l.StatusWarning? ensures status != Complete {
      InGenerated(band, cs, excluded, status, l);
    }
    if status != Complete {
      assert StatusWarning(status) in WarningSection(status, excluded);
      InGenerated(band, cs, excluded, status, StatusWarning(status));
    }
  }

  /** There is an exclusion line exactly when something was excluded, and then it is the last line. */
  lemma GeneratedExcluded(band: Band, cs: seq<ScoreComponent>, excluded: seq<string>, status: BaselineStatus)
    ensures var lines := Generated(band, cs, excluded, status);
      && ((exists l :: l in lines && l.ExcludedNote?) <==> excluded != [])
      && (excluded != [] ==> lines[|lines| - 1] == ExcludedNote(excluded))
  {
    var lines := Generated(band, cs, excluded, status);
    SectionKinds(cs, excluded, status);
    forall l | l in lines && l.ExcludedNote? ensures excluded != [] {
      InGenerated(band, cs, excluded, status, l);
    }
    if excluded != [] {
      var w := WarningSection(status, excluded);
      assert w[|w| - 1] == ExcludedNote(excluded);
      assert lines[|lines| - 1] == w[|w| - 1];
    }
  }

  /** There is a divergence note exactly when `_format_divergence` has one. */
  lemma GeneratedNote(band: Band, cs: seq<ScoreComponent>, excluded: seq<string>, status: BaselineStatus)
    ensures var lines := Generated(band, cs, excluded, status);
      (exists l :: l in lines && l.DivergenceNote?) <==> DivergenceNoteOf(cs).Some?
  {
    var lines := Generated(band, cs, excluded, status);
    SectionKinds(cs, excluded, status);
    forall l | l in lines && l.DivergenceNote? ensures DivergenceNoteOf(cs).Some? {
      InGenerated(band, cs, excluded, status, l);
    }
    if DivergenceNoteOf(cs).Some? {
      var note := DivergenceNoteOf(cs).value;
      assert note in NoteSection(cs);
      InGenerated(band, cs, excluded, status, note);
    }
  }

  /** The index of the first component with the largest |z|, the one Python's `max` returns. */
  function FirstMaxIndex(cs: seq<ScoreComponent>): (k: nat)
    requires cs != []
    ensures k < |cs|
    ensures forall j :: 0 <= j < |cs| ==> AbsZ(cs[j]) <= AbsZ(cs[k])
    ensures forall j :: 0 <= j < k ==> AbsZ(cs[j]) < AbsZ(cs[k])
  {
    if |cs| == 1 then 0
    else
      var last := |cs| - 1;
      var k := FirstMaxIndex(cs[..last]);
      assert forall j :: 0 <= j < last ==> cs[..last][j] == cs[j];
      if AbsZ(cs[last]) > AbsZ(cs[k]) then last else k
  }

  /** The one-line summary: score, band and, when there are components, the leading one. */
  datatype Summary = Summary(score: real, band: Band, ledBy: Option<string>)

  /** `format_summary`: led by the first component of largest |z|, and by none when there are none. */
  function FormatSummary(score: real, band: Band, cs: seq<ScoreComponent>): (s: Summary)
    ensures s.score == score && s.band == band
    ensures s.ledBy.None? <==> cs == []
    ensures s.ledBy.Some? ==>
      exists k :: 0 <= k < |cs| && cs[k].name == s.ledBy.value
        && (forall j :: 0 <= j < |cs| ==> AbsZ(cs[j]) <= AbsZ(cs[k]))
        && (forall j :: 0 <= j < k ==> AbsZ(cs[j]) < AbsZ(cs[k]))
  {
    if cs == [] then Summary(score, band, None)
    else Summary(score, band, Some(cs[FirstMaxIndex(cs)].name))
  }
}
