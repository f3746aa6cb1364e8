/** The second generation of the student views (`project/sua/views/student.py`):
    the index context, appeal submission, the export context and the PDF
    export, whose canvas is modelled as the log of its `drawString` calls. */
module StudentViews {
  import opened Common
  import DedekindViews

  type UserRef = nat
  type StudentRef = nat
  type PublicityRef = nat

  /** An activity as the sua serializer nests it: its title and its group, the
      latter as the serializer renders it. */
  datatype Activity = Activity(title: string, group: string)

  datatype Sua = Sua(activity: Activity, team: string, hours: Hours, isValid: bool)

  datatype Publicity = Publicity(id: PublicityRef, window: Window, title: string)

  datatype Application = Application(sua: Sua, isChecked: bool)

  datatype Appeal = Appeal(publicity: Publicity, content: string, isChecked: bool)

  /** `suas` and `appeals` are the student's related rows in store order. */
  datatype Student = Student(id: StudentRef, name: string, number: string, suahours: Hours,
                             suas: seq<Sua>, appeals: seq<Appeal>)

  datatype User = User(id: UserRef, username: string, applications: seq<Application>,
                       student: Option<Student>)

  /** A value of a template context. `Inherited` stands for whatever the base
      view put there. */
  datatype Value =
    | PublicityList(publicities: seq<Publicity>)
    | ApplicationList(applications: seq<Application>)
    | SuaList(suas: seq<Sua>)
    | AppealList(appeals: seq<Appeal>)
    | Text(text: string)
    | HoursValue(hours: Hours)
    | Inherited(token: nat)

  // ---------------------------------------------------------------------------
  // Index

  /** `is_published`, `begin <= now`, `end >= now`: both ends of the window count. */
  predicate ShownOnIndex(w: Window, now: Instant)
  {
    w.isPublished && w.begin <= now && now <= w.end
  }

  function IndexPublicities(ps: seq<Publicity>, now: Instant): (r: seq<Publicity>)
    ensures forall i :: 0 <= i < |r| ==>
      r[i] in ps && r[i].window.isPublished && r[i].window.begin <= now <= r[i].window.end
    ensures forall i :: 0 <= i < |ps| ==>
      (ps[i].window.isPublished && ps[i].window.begin <= now <= ps[i].window.end ==> ps[i] in r)
  {
    Filter(ps, (p: Publicity) => ShownOnIndex(p.window, now))
  }

  /** The two generations of the index disagree exactly at the end instant of
      a published window that has begun: the newer one still lists it. */
  lemma IndexWindowsDiffer(w: Window, now: Instant)
    ensures DedekindViews.ShownOnIndex(w, now) ==> ShownOnIndex(w, now)
    ensures ShownOnIndex(w, now) && !DedekindViews.ShownOnIndex(w, now)
            <==> w.isPublished && w.begin <= now && now == w.end
  {
  }

  /** The suas a student sees and exports: the valid ones, in store order. */
  function ValidSuas(suas: seq<Sua>): (r: seq<Sua>)
    ensures forall i :: 0 <= i < |r| ==> r[i].isValid && r[i] in suas
    ensures forall i :: 0 <= i < |suas| ==> (suas[i].isValid ==> suas[i] in r)
  {
    Filter(suas, (s: Sua) => s.isValid)
  }

  const PublicitiesKey: string := "publicities"
  const ApplicationsKey: string := "applications"
  const SuasKey: string := "suas"
  const AppealsKey: string := "appeals"

  /** `IndexView.serialize` on top of the base view's context `base`. */
  method IndexSerialize(base: map<string, Value>, usr: User, publicities: seq<Publicity>, now: Instant)
    returns (serialized: map<string, Value>)
    ensures serialized.Keys == base.Keys + {PublicitiesKey, ApplicationsKey}
                               + (if usr.student.Some? then {SuasKey, AppealsKey} else {})
    ensures serialized[PublicitiesKey] == PublicityList(IndexPublicities(publicities, now))
    ensures serialized[ApplicationsKey] == ApplicationList(usr.applications)
    ensures usr.student.Some? ==>
      serialized[SuasKey] == SuaList(ValidSuas(usr.student.value.suas))
      && serialized[AppealsKey] == AppealList(usr.student.value.appeals)
    ensures forall k :: k in base && k !in {PublicitiesKey, ApplicationsKey} ==>
      (usr.student.None? || k !in {SuasKey, AppealsKey}) ==> serialized[k] == base[k]
  {
    serialized := base;
    serialized := serialized + map[PublicitiesKey := PublicityList(IndexPublicities(publicities, now)),
                                   ApplicationsKey := ApplicationList(usr.applications)];
    if usr.student.Some? {
      var student := usr.student.value;
      serialized := serialized + map[SuasKey := SuaList(ValidSuas(student.suas)),
                                     AppealsKey := AppealList(student.appeals)];
    }
  }

  // ---------------------------------------------------------------------------
  // Appeals

  datatype AppealInput = AppealInput(valid: bool, content: string)

  /** The appeal the serializer saves, with the values the view passes to `save`. */
  datatype NewAppeal = NewAppeal(publicity: Publicity, owner: UserRef, student: StudentRef, content: string)

  /** What `deserialize` returns and what it saved. */
  datatype Deserialized = Deserialized(returned: bool, saved: Option<NewAppeal>)

  /** `AppealView.deserialize`; `publicity` is the lookup of the `pk` argument. */
  function AppealDeserialize(usr: User, input: AppealInput, publicity: Option<Publicity>): (r: Result<Deserialized>)
    ensures usr.student.None? ==> r == Err(AssertionError)
    ensures r.Ok? ==> (r.value.returned <==> input.valid) && (r.value.saved.Some? <==> r.value.returned)
    ensures usr.student.Some? && input.valid && publicity.None? ==> r == Err(DoesNotExist)
    ensures usr.student.Some? && !input.valid ==> r == Ok(Deserialized(false, None))
    ensures usr.student.Some? && input.valid && publicity.Some? ==> r.Ok?
    ensures r.Ok? && r.value.saved.Some? ==>
      publicity.Some? && r.value.saved.value
        == NewAppeal(publicity.value, usr.id, usr.student.value.id, input.content)
  {
    if usr.student.None? then Err(AssertionError)
    else if !input.valid then Ok(Deserialized(false, None))
    else if publicity.None? then Err(DoesNotExist)
    else Ok(Deserialized(true, Some(NewAppeal(publicity.value, usr.id, usr.student.value.id, input.content))))
  }

  /** Unlike the first generation's appeal page, the newer endpoint has no
      deadline: an appeal past the end of the window is still saved. */
  lemma NewAppealIgnoresDeadline(usr: User, input: AppealInput, p: Publicity, now: Instant)
    requires usr.student.Some? && input.valid && now > p.window.end
    ensures !DedekindViews.AppealWindowOpen(p.window, now)
    ensures AppealDeserialize(usr, input, Some(p)).Ok?
    ensures AppealDeserialize(usr, input, Some(p)).value.saved.Some?
  {
  }

  // ---------------------------------------------------------------------------
  // Export context

  const NameKey: string := "name"
  const NumberKey: string := "number"
  const HourKey: string := "hour"

  /** `SuasExportView.serialize`. For a user without a student the view reads
      the unbound `sua_data`. */
  method ExportSerialize(base: map<string, Value>, usr: User) returns (r: Result<map<string, Value>>)
    ensures usr.student.None? <==> r == Err(NameError)
    ensures usr.student.Some? ==>
      var student := usr.student.value;
      && r.Ok?
      && r.value.Keys == base.Keys + {SuasKey, NameKey, NumberKey, HourKey}
      && r.value[SuasKey] == SuaList(ValidSuas(student.suas))
      && r.value[NameKey] == Text(student.name)
      && r.value[NumberKey] == Text(student.number)
      && r.value[HourKey] == HoursValue(student.suahours)
      && forall k :: k in base && k !in {SuasKey, NameKey, NumberKey, HourKey} ==> r.value[k] == base[k]
  {
    if usr.student.None? {
      return Err(NameError);
    }
    var student := usr.student.value;
    var serialized := base;
    serialized := serialized + map[SuasKey := SuaList(ValidSuas(student.suas)),
                                   NameKey := Text(student.name),
                                   NumberKey := Text(student.number),
                                   HourKey := HoursValue(student.suahours)];
    r := Ok(serialized);
  }

  // ---------------------------------------------------------------------------
  // PDF export

  datatype DrawCall = DrawString(x: int, y: int, text: string)

  /** The canvas, reduced to the log of the strings drawn on it. */
  class Canvas {
    var log: seq<DrawCall>

    constructor ()
      ensures log == []
    {
      log := [];
    }

    method DrawString(x: int, y: int, text: string)
      modifies this
      ensures log == old(log) + [DrawCall.DrawString(x, y, text)]
    {
      log := log + [DrawCall.DrawString(x, y, text)];
    }
  }

  const Margin: int := 40
  const HeaderRow: int := 670
  const FirstRow: int := 650
  const RowStep: int := 50

  function DigitChar(d: nat): char
    requires d < 10
  {
    "0123456789"[d]
  }

  function NatText(n: nat): string
  {
    if n < 10 then [DigitChar(n)] else NatText(n / 10) + [DigitChar(n % 10)]
  }

  /** `str` of an hours value: its tenths written as a decimal with one place. */
  function HoursText(h: Hours): string
  {
    var t: nat := if h < 0 then -h else h;
    (if h < 0 then "-" else "") + NatText(t / 10) + "." + [DigitChar(t % 10)]
  }

  /** The cells of one column, drawn downwards from the first row. */
  function Column(x: int, cells: seq<string>): seq<DrawCall>
  {
    if cells == [] then []
    else Column(x, cells[..|cells| - 1])
         + [DrawCall.DrawString(x, FirstRow - RowStep * (|cells| - 1), cells[|cells| - 1])]
  }

  function Titles(suas: seq<Sua>): seq<string>
  {
    seq(|suas|, i requires 0 <= i < |suas| => suas[i].activity.title)
  }

  function Groups(suas: seq<Sua>): seq<string>
  {
    seq(|suas|, i requires 0 <= i < |suas| => suas[i].activity.group)
  }

  function HoursCells(suas: seq<Sua>): seq<string>
  {
    seq(|suas|, i requires 0 <= i < |suas| => HoursText(suas[i].hours) + "h")
  }

  function ExportHeader(username: string, student: Student): seq<DrawCall>
  {
    [ DrawCall.DrawString(Margin, 780, "The suas'record"),
      DrawCall.DrawString(Margin, 750, "Number:" + username),
      DrawCall.DrawString(Margin, 720, "Total suahours:" + HoursText(student.suahours) + "h") ]
  }

  /** One column: its heading on the header row, then its cells. */
  function Section(x: int, heading: string, cells: seq<string>): seq<DrawCall>
  {
    [DrawCall.DrawString(x, HeaderRow, heading)] + Column(x, cells)
  }

  /** Every string the export draws, in drawing order. */
  function ExportLayout(username: string, student: Student): seq<DrawCall>
  {
    var suas := ValidSuas(student.suas);
    ExportHeader(username, student)
    + Section(Margin, "Title", Titles(suas))
    + Section(Margin + 200, "Group", Groups(suas))
    + Section(Margin + 400, "Suahours", HoursCells(suas))
  }

  lemma {:induction false} ColumnAt(x: int, cells: seq<string>)
    ensures |Column(x, cells)| == |cells|
    ensures forall i :: 0 <= i < |cells| ==>
      Column(x, cells)[i] == DrawCall.DrawString(x, FirstRow - RowStep * i, cells[i])
  {
    if cells != [] {
      var init := cells[..|cells| - 1];
      ColumnAt(x, init);
      forall i | 0 <= i < |init| ensures init[i] == cells[i] { }
    }
  }

  lemma SectionAt(x: int, heading: string, cells: seq<string>)
    ensures |Section(x, heading, cells)| == |cells| + 1
    ensures Section(x, heading, cells)[0] == DrawCall.DrawString(x, HeaderRow, heading)
    ensures forall i :: 0 <= i < |cells| ==>
      Section(x, heading, cells)[i + 1] == DrawCall.DrawString(x, FirstRow - RowStep * i, cells[i])
  {
    ColumnAt(x, cells);
  }

  /** Draws one column: its heading, then the loop that resets `location` and
      lowers it by 50 per sua. */
  method DrawSection(p: Canvas, x: int, heading: string, cells: seq<string>)
    modifies p
    ensures p.log == old(p.log) + Section(x, heading, cells)
  {
    var location := FirstRow;
    p.DrawString(x, HeaderRow, heading);
    ghost var start := p.log;
    for i := 0 to |cells|
      invariant location == FirstRow - RowStep * i
      invariant p.log == start + Column(x, cells[..i])
    {
      p.DrawString(x, location, cells[i]);
      assert cells[..i + 1][..i] == cells[..i];
      location := location - RowStep;
    }
    assert cells[..|cells|] == cells;
  }

  /** `Download`: the export of the requesting user's valid suas. */
  method Download(usr: User) returns (r: Result<seq<DrawCall>>)
    ensures usr.student.None? ==> r == Err(RelatedObjectDoesNotExist)
    ensures usr.student.Some? ==> r == Ok(ExportLayout(usr.username, usr.student.value))
  {
    if usr.student.None? {
      return Err(RelatedObjectDoesNotExist);
    }
    var student := usr.student.value;
    var suaData := ValidSuas(student.suas);
    var p := new Canvas();
    p.DrawString(Margin, 780, "The suas'record");
    p.DrawString(Margin, 750, "Number:" + usr.username);
    p.DrawString(Margin, 720, "Total suahours:" + HoursText(student.suahours) + "h");
    assert p.log == ExportHeader(usr.username, student);
    DrawSection(p, Margin, "Title", Titles(suaData));
    DrawSection(p, Margin + 200, "Group", Groups(suaData));
    DrawSection(p, Margin + 400, "Suahours", HoursCells(suaData));
    r := Ok(p.log);
  }

  /** The export draws the three page headers, then for each of the three
      columns its heading on row 670 and one cell per valid sua. */
  lemma ExportLayoutShape(username: string, student: Student)
    ensures var n := |ValidSuas(student.suas)|; var log := ExportLayout(username, student);
      && |log| == 6 + 3 * n
      && log[..3] == ExportHeader(username, student)
      && log[3] == DrawCall.DrawString(40, 670, "Title")
      && log[4 + n] == DrawCall.DrawString(240, 670, "Group")
      && log[5 + 2 * n] == DrawCall.DrawString(440, 670, "Suahours")
  {
    var suas := ValidSuas(student.suas);
    var h := ExportHeader(username, student);
    var s1 := Section(Margin, "Title", Titles(suas));
    var s2 := Section(Margin + 200, "Group", Groups(suas));
    var s3 := Section(Margin + 400, "Suahours", HoursCells(suas));
    SectionAt(Margin, "Title", Titles(suas));
    SectionAt(Margin + 200, "Group", Groups(suas));
    SectionAt(Margin + 400, "Suahours", HoursCells(suas));
    var log := ExportLayout(username, student);
    assert log == h + s1 + s2 + s3;
    var n := |suas|;
    assert log[3] == s1[0];
    assert log[4 + n] == s2[0];
    assert log[5 + 2 * n] == s3[0];
  }

  /** Row i of the export, in the order of the valid suas, is drawn at
      y = 650 - 50 i in all three columns: the title at x = 40, the group at
      x = 240 and the hours followed by "h" at x = 440. */
  lemma RowsAligned(username: string, student: Student, i: nat)
    requires i < |ValidSuas(student.suas)|
    ensures var suas := ValidSuas(student.suas); var n := |suas|;
      var log := ExportLayout(username, student); var y := 650 - 50 * i;
      && |log| == 6 + 3 * n
      && log[4 + i] == DrawCall.DrawString(40, y, suas[i].activity.title)
      && log[5 + n + i] == DrawCall.DrawString(240, y, suas[i].activity.group)
      && log[6 + 2 * n + i] == DrawCall.DrawString(440, y, HoursText(suas[i].hours) + "h")
      && suas[i].isValid
  {
    var suas := ValidSuas(student.suas);
    var n := |suas|;
    var h := ExportHeader(username, student);
    var s1 := Section(Margin, "Title", Titles(suas));
    var s2 := Section(Margin + 200, "Group", Groups(suas));
    var s3 := Section(Margin + 400, "Suahours", HoursCells(suas));
    SectionAt(Margin, "Title", Titles(suas));
    SectionAt(Margin + 200, "Group", Groups(suas));
    SectionAt(Margin + 400, "Suahours", HoursCells(suas));
    var log := ExportLayout(username, student);
    var a := h + s1;
    var b := a + s2;
    assert log == b + s3;
    assert |a| == n + 4 && |b| == 2 * n + 5;
    assert log[4 + i] == a[4 + i] == s1[i + 1];
    assert log[5 + n + i] == b[5 + n + i] == s2[i + 1];
    assert log[6 + 2 * n + i] == s3[i + 1];
    assert Titles(suas)[i] == suas[i].activity.title;
    assert Groups(suas)[i] == suas[i].activity.group;
    assert HoursCells(suas)[i] == HoursText(suas[i].hours) + "h";
  }
}
