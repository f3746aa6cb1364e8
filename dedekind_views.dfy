/** The first generation of the SUA views (`Dedekind/sua/views.py`): the index
    pages of students and staff, claim submission (`apply_sua`), appeals
    (`appeal_for`) and the application detail page. Queries are given as
    sequences in the order the view asks the store for, and every `save()` is a
    record in the returned outcome. */
module DedekindViews {
  import opened Common

  type UserRef = nat
  type StudentRef = nat
  type ActivityRef = nat
  type FileRef = string

  /** A service-hour record. */
  datatype Sua = Sua(student: StudentRef, activity: ActivityRef, team: string,
                     hours: Hours, isValid: bool, lastTimeHours: Hours)

  /** Evidence for a claim: an uploaded file, or the shared offline proof. */
  datatype Proof = Proof(user: UserRef, date: Instant, isOffline: bool, file: Option<FileRef>)

  /** The submission event of a claim, linked to its sua and its proof. */
  datatype Application = Application(sua: Sua, proof: Proof, date: DateTime,
                                     isChecked: bool, detail: string)

  datatype Appeal = Appeal(student: StudentRef, gsua: ActivityRef, date: Instant,
                           isChecked: bool, feedback: string, content: string)

  /** A student with the query results the index reads from it:
      `suas` is `sua_set.order_by('-date')`, `suasByApplicationDate` is
      `sua_set.order_by('-sua_application__date')` with each sua's application
      when it has one, `appeals` is `appeal_set.order_by('-date')`. */
  datatype Student = Student(id: StudentRef, name: string, number: string, suahours: Hours,
                             suas: seq<Sua>,
                             suasByApplicationDate: seq<Option<Application>>,
                             appeals: seq<Appeal>)

  datatype User = User(id: UserRef, username: string, isStaff: bool, student: Option<Student>)

  /** One sua of a published activity, with its student's name
      (an element of `gsua.suas.order_by('team', 'suahours', 'student__name')`). */
  datatype RosterEntry = RosterEntry(team: string, hours: Hours, name: string)

  datatype GSuaPublicity = GSuaPublicity(window: Window, gsua: ActivityRef, roster: seq<RosterEntry>)

  /** team -> hours -> names of the students with that team and those hours. */
  type Teams = map<string, map<Hours, seq<string>>>

  /** `'-.-'` stands in for the hours of a user without a student. */
  datatype HoursShown = Amount(hours: Hours) | Placeholder

  datatype Header = Header(name: string, number: string, suahours: HoursShown)

  // ---------------------------------------------------------------------------
  // Display name and header of the index pages

  const StaffPrefix: string := "Admin."
  const VisitorPrefix: string := "NoStuInfo."
  const NoNumber: string := "------"

  /** The student's name, or the user name behind a prefix saying whether the
      user is staff. */
  function DisplayName(usr: User): string
  {
    if usr.student.Some? then usr.student.value.name
    else if usr.isStaff then StaffPrefix + usr.username
    else VisitorPrefix + usr.username
  }

  function IndexHeader(usr: User): Header
  {
    match usr.student
    case Some(stu) => Header(stu.name, stu.number, Amount(stu.suahours))
    case None => Header(DisplayName(usr), NoNumber, Placeholder)
  }

  /** Reads a fallback display name back into (is staff, user name). */
  function ParseFallbackName(name: string): (r: Option<(bool, string)>)
    ensures r.Some? ==> (if r.value.0 then StaffPrefix else VisitorPrefix) + r.value.1 == name
  {
    if |name| >= |StaffPrefix| && name[..|StaffPrefix|] == StaffPrefix then
      Some((true, name[|StaffPrefix|..]))
    else if |name| >= |VisitorPrefix| && name[..|VisitorPrefix|] == VisitorPrefix then
      Some((false, name[|VisitorPrefix|..]))
    else None
  }

  /** The header of a user without a student loses nothing: the staff flag and
      the user name can be read back from the name, and the number and hours are
      the placeholders. */
  lemma FallbackHeaderRoundTrip(usr: User)
    requires usr.student.None?
    ensures ParseFallbackName(IndexHeader(usr).name) == Some((usr.isStaff, usr.username))
    ensures IndexHeader(usr).number == NoNumber && IndexHeader(usr).suahours == Placeholder
  {
    var name := IndexHeader(usr).name;
    if usr.isStaff {
      assert name[..|StaffPrefix|] == StaffPrefix;
      assert name[|StaffPrefix|..] == usr.username;
    } else {
      assert name[..|VisitorPrefix|] == VisitorPrefix;
      assert name[|VisitorPrefix|..] == usr.username;
      assert name[..|StaffPrefix|] != StaffPrefix by {
        assert name[0] == 'N';
      }
    }
  }

  // ---------------------------------------------------------------------------
  // Academic year

  /** The month (y1, m1) is not after the month (y2, m2). */
  predicate MonthNotAfter(y1: int, m1: int, y2: int, m2: int)
  {
    y1 < y2 || (y1 == y2 && m1 <= m2)
  }

  /** The academic year of a date runs from September to the next August. */
  function AcademicYear(d: DateTime): (span: (int, int))
    ensures span.1 == span.0 + 1
    ensures span.0 <= d.year <= span.1
    ensures MonthNotAfter(span.0, 9, d.year, d.month)
    ensures !MonthNotAfter(span.1, 9, d.year, d.month)
  {
    if d.month < 9 then (d.year - 1, d.year) else (d.year, d.year + 1)
  }

  /** The academic year is the only year whose September starts a twelve-month
      span containing the date. */
  lemma AcademicYearUnique(d: DateTime, y: int)
    requires MonthNotAfter(y, 9, d.year, d.month) && !MonthNotAfter(y + 1, 9, d.year, d.month)
    ensures y == AcademicYear(d).0
  {
  }

  // ---------------------------------------------------------------------------
  // Numbered history lists

  /** `r` pairs each element of `xs`, in order, with its 1-based position. */
  ghost predicate IsNumbering<T>(r: seq<(nat, T)>, xs: seq<T>)
  {
    |r| == |xs| && forall k :: 0 <= k < |r| ==> r[k] == (k + 1, xs[k])
  }

  /** The loop `i += 1; list.append((i, x))` over every element. */
  method Number<T>(xs: seq<T>) returns (numbered: seq<(nat, T)>)
    ensures IsNumbering(numbered, xs)
  {
    numbered := [];
    var i := 0;
    for j := 0 to |xs|
      invariant i == j
      invariant IsNumbering(numbered, xs[..j])
    {
      i := i + 1;
      numbered := numbered + [(i, xs[j])];
    }
    assert xs[..|xs|] == xs;
  }

  /** The values of the present elements, in order. */
  function Present<T>(xs: seq<Option<T>>): seq<T>
  {
    if xs == [] then []
    else Present(xs[..|xs| - 1]) + (if xs[|xs| - 1].Some? then [xs[|xs| - 1].value] else [])
  }

  lemma {:induction false} PresentMembers<T>(xs: seq<Option<T>>, x: T)
    ensures x in Present(xs) <==> Some(x) in xs
  {
    if xs != [] {
      PresentMembers(xs[..|xs| - 1], x);
      assert xs == xs[..|xs| - 1] + [xs[|xs| - 1]];
    }
  }

  /** The loop that numbers only the suas that have an application: the counter
      moves only when an element is appended, so the numbers stay contiguous. */
  method NumberPresent<T>(xs: seq<Option<T>>) returns (numbered: seq<(nat, T)>)
    ensures IsNumbering(numbered, Present(xs))
  {
    numbered := [];
    var i := 0;
    for j := 0 to |xs|
      invariant i == |numbered|
      invariant IsNumbering(numbered, Present(xs[..j]))
    {
      assert xs[..j + 1][..j] == xs[..j];
      if xs[j].Some? {
        i := i + 1;
        numbered := numbered + [(i, xs[j].value)];
      }
    }
    assert xs[..|xs|] == xs;
  }

  // ---------------------------------------------------------------------------
  // Publicity window of the index pages

  /** `is_published`, `published_begin_date <= now`, `published_end_date > now`. */
  predicate ShownOnIndex(w: Window, now: Instant)
  {
    w.isPublished && w.begin <= now && now < w.end
  }

  /** The publicities the index lists at `now`; the end of the window is excluded. */
  function IndexPublicities(ps: seq<GSuaPublicity>, now: Instant): (r: seq<GSuaPublicity>)
    ensures forall i :: 0 <= i < |r| ==>
      r[i] in ps && r[i].window.isPublished && r[i].window.begin <= now < r[i].window.end
    ensures forall i :: 0 <= i < |ps| ==>
      (ps[i].window.isPublished && ps[i].window.begin <= now < ps[i].window.end ==> ps[i] in r)
  {
    Filter(ps, (p: GSuaPublicity) => ShownOnIndex(p.window, now))
  }

  // ---------------------------------------------------------------------------
  // Roster grouping

  /** One step of the grouping loop: append the name to its team and hours bucket,
      creating the team and the bucket when they are missing. */
  function Insert(teams: Teams, e: RosterEntry): Teams
  {
    var inner := if e.team in teams then teams[e.team] else map[];
    var bucket := if e.hours in inner then inner[e.hours] else [];
    teams[e.team := inner[e.hours := bucket + [e.name]]]
  }

  /** The grouping of a roster: the loop's fold over the entries in order. */
  function Grouped(s: seq<RosterEntry>): Teams
  {
    if s == [] then map[] else Insert(Grouped(s[..|s| - 1]), s[|s| - 1])
  }

  /** Groups a publicity's roster by team and hours, in place in a nested map. */
  method GroupRoster(suas: seq<RosterEntry>) returns (teams: Teams)
    ensures teams == Grouped(suas)
  {
    teams := map[];
    var i := 0;
    while i < |suas|
      invariant 0 <= i <= |suas|
      invariant teams == Grouped(suas[..i])
    {
      var sua := suas[i];
      ghost var before := teams;
      ghost var inner := if sua.team in teams then teams[sua.team] else map[];
      ghost var bucket := if sua.hours in inner then inner[sua.hours] else [];
      if sua.team !in teams {
        teams := teams[sua.team := map[]];
      }
      assert teams[sua.team] == inner;
      if sua.hours !in teams[sua.team] {
        teams := teams[sua.team := teams[sua.team][sua.hours := []]];
      }
      assert teams[sua.team][sua.hours] == bucket;
      assert teams[sua.team][sua.hours := bucket + [sua.name]] == inner[sua.hours := bucket + [sua.name]];
      assert teams.Keys == before.Keys + {sua.team};
      assert forall t :: t in teams && t != sua.team ==> teams[t] == before[t];
      teams := teams[sua.team := teams[sua.team][sua.hours := teams[sua.team][sua.hours] + [sua.name]]];
      assert teams == before[sua.team := inner[sua.hours := bucket + [sua.name]]];
      assert suas[..i + 1][..i] == suas[..i];
      i := i + 1;
    }
    assert suas[..|suas|] == suas;
  }

  /** The names, in roster order, of the entries with this team and these hours:
      the reference definition of a bucket. */
  function Bucket(s: seq<RosterEntry>, team: string, hours: Hours): seq<string>
  {
    if s == [] then []
    else Bucket(s[..|s| - 1], team, hours)
         + (if s[|s| - 1].team == team && s[|s| - 1].hours == hours then [s[|s| - 1].name] else [])
  }

  type Key = (string, Hours)

  function KeyOf(e: RosterEntry): Key
  {
    (e.team, e.hours)
  }

  /** The bucket of a key, empty when the team or the hours are absent. */
  function BucketOf(teams: Teams, k: Key): seq<string>
  {
    if k.0 in teams && k.1 in teams[k.0] then teams[k.0][k.1] else []
  }

  ghost predicate HasTeam(s: seq<RosterEntry>, team: string)
  {
    exists k :: 0 <= k < |s| && s[k].team == team
  }

  ghost predicate HasKey(s: seq<RosterEntry>, team: string, hours: Hours)
  {
    exists k :: 0 <= k < |s| && s[k].team == team && s[k].hours == hours
  }

  lemma InsertFacts(teams: Teams, e: RosterEntry)
    ensures forall t :: t in Insert(teams, e) <==> t in teams || t == e.team
    ensures forall t, h :: t in Insert(teams, e) ==>
      (h in Insert(teams, e)[t] <==> (t in teams && h in teams[t]) || (t == e.team && h == e.hours))
    ensures forall k :: BucketOf(Insert(teams, e), k)
                        == BucketOf(teams, k) + (if k == KeyOf(e) then [e.name] else [])
  {
  }

  lemma HasSnoc(p: seq<RosterEntry>, e: RosterEntry, team: string, hours: Hours)
    ensures HasTeam(p + [e], team) <==> HasTeam(p, team) || e.team == team
    ensures HasKey(p + [e], team, hours) <==> HasKey(p, team, hours) || (e.team == team && e.hours == hours)
  {
    var s := p + [e];
    assert s[|p|] == e;
    if HasTeam(p, team) {
      var k :| 0 <= k < |p| && p[k].team == team;
      assert s[k] == p[k];
    }
    if HasKey(p, team, hours) {
      var k :| 0 <= k < |p| && p[k].team == team && p[k].hours == hours;
      assert s[k] == p[k];
    }
    if HasTeam(s, team) {
      var k :| 0 <= k < |s| && s[k].team == team;
      if k < |p| { assert s[k] == p[k]; }
    }
    if HasKey(s, team, hours) {
      var k :| 0 <= k < |s| && s[k].team == team && s[k].hours == hours;
      if k < |p| { assert s[k] == p[k]; }
    }
  }

  /** Every entry's name lands in exactly the bucket of its team and hours, in
      roster order; a team is present iff some entry carries it, and an hours
      value under it iff some entry carries that team and those hours. */
  lemma {:induction false} GroupedShape(s: seq<RosterEntry>)
    ensures forall t :: t in Grouped(s) <==> HasTeam(s, t)
    ensures forall t, h :: t in Grouped(s) ==> (h in Grouped(s)[t] <==> HasKey(s, t, h))
    ensures forall t, h :: BucketOf(Grouped(s), (t, h)) == Bucket(s, t, h)
  {
    if s != [] {
      var p, e := s[..|s| - 1], s[|s| - 1];
      assert s == p + [e];
      GroupedShape(p);
      InsertFacts(Grouped(p), e);
      forall t, h | true
        ensures HasTeam(s, t) <==> HasTeam(p, t) || e.team == t
        ensures HasKey(s, t, h) <==> HasKey(p, t, h) || (e.team == t && e.hours == h)
      {
        HasSnoc(p, e, t, h);
      }
    }
  }

  /** Code-point lexicographic order on strings (the store's collation). */
  predicate StrLe(a: string, b: string)
  {
    if a == [] then true
    else if b == [] then false
    else a[0] < b[0] || (a[0] == b[0] && StrLe(a[1..], b[1..]))
  }

  /** The order of `order_by('team', 'suahours', 'student__name')`. */
  predicate RosterLe(a: RosterEntry, b: RosterEntry)
  {
    (StrLe(a.team, b.team) && a.team != b.team)
    || (a.team == b.team && (a.hours < b.hours || (a.hours == b.hours && StrLe(a.name, b.name))))
  }

  ghost predicate RosterOrdered(s: seq<RosterEntry>)
  {
    forall i, j :: 0 <= i < j < |s| ==> RosterLe(s[i], s[j])
  }

  ghost predicate NamesSorted(names: seq<string>)
  {
    forall i, j :: 0 <= i < j < |names| ==> StrLe(names[i], names[j])
  }

  lemma {:induction false} BucketMembers(s: seq<RosterEntry>, team: string, hours: Hours, n: string)
    requires n in Bucket(s, team, hours)
    ensures exists k :: 0 <= k < |s| && s[k] == RosterEntry(team, hours, n)
  {
    var p := s[..|s| - 1];
    if n in Bucket(p, team, hours) {
      BucketMembers(p, team, hours, n);
      var k :| 0 <= k < |p| && p[k] == RosterEntry(team, hours, n);
      assert s[k] == p[k];
    } else {
      assert s[|s| - 1] == RosterEntry(team, hours, n);
    }
  }

  /** When the roster comes in query order, every bucket lists its names in
      ascending order. */
  lemma {:induction false} BucketSorted(s: seq<RosterEntry>, team: string, hours: Hours)
    requires RosterOrdered(s)
    ensures NamesSorted(Bucket(s, team, hours))
  {
    if s != [] {
      var p, e := s[..|s| - 1], s[|s| - 1];
      assert RosterOrdered(p) by {
        forall i, j | 0 <= i < j < |p| ensures RosterLe(p[i], p[j]) {
          assert p[i] == s[i] && p[j] == s[j];
        }
      }
      BucketSorted(p, team, hours);
      var b := Bucket(p, team, hours);
      if e.team == team && e.hours == hours {
        forall i | 0 <= i < |b| ensures StrLe(b[i], e.name) {
          assert b[i] in b;
          BucketMembers(p, team, hours, b[i]);
          var k :| 0 <= k < |p| && p[k] == RosterEntry(team, hours, b[i]);
          assert RosterLe(s[k], s[|s| - 1]);
        }
        var r := b + [e.name];
        forall i, j | 0 <= i < j < |r| ensures StrLe(r[i], r[j]) {
          if j < |b| { assert r[i] == b[i] && r[j] == b[j]; }
        }
      }
    }
  }

  /** The distinct (team, hours) keys of a roster, in order of first appearance. */
  function DistinctKeys(s: seq<RosterEntry>): seq<Key>
  {
    if s == [] then []
    else
      var d := DistinctKeys(s[..|s| - 1]);
      if KeyOf(s[|s| - 1]) in d then d else d + [KeyOf(s[|s| - 1])]
  }

  /** The number of names in the buckets of the given keys. */
  function NameCount(teams: Teams, ks: seq<Key>): nat
  {
    if ks == [] then 0 else NameCount(teams, ks[..|ks| - 1]) + |BucketOf(teams, ks[|ks| - 1])|
  }

  ghost predicate Distinct<T>(ks: seq<T>)
  {
    forall i, j :: 0 <= i < j < |ks| ==> ks[i] != ks[j]
  }

  lemma {:induction false} NameCountInsert(teams: Teams, e: RosterEntry, ks: seq<Key>)
    requires Distinct(ks)
    ensures NameCount(Insert(teams, e), ks) == NameCount(teams, ks) + (if KeyOf(e) in ks then 1 else 0)
  {
    InsertFacts(teams, e);
    if ks != [] {
      var q := ks[..|ks| - 1];
      assert Distinct(q) by {
        forall i, j | 0 <= i < j < |q| ensures q[i] != q[j] {
          assert q[i] == ks[i] && q[j] == ks[j];
        }
      }
      NameCountInsert(teams, e, q);
      assert ks == q + [ks[|ks| - 1]];
      if ks[|ks| - 1] == KeyOf(e) {
        assert KeyOf(e) !in q by {
          forall i | 0 <= i < |q| ensures q[i] != KeyOf(e) {
            assert q[i] == ks[i];
          }
        }
      }
    }
  }

  /** Grouping loses and duplicates no sua: the buckets hold as many names as
      the roster has entries, and the buckets are exactly those of the roster's
      distinct keys. */
  lemma {:induction false} GroupedTotal(s: seq<RosterEntry>)
    ensures Distinct(DistinctKeys(s))
    ensures forall t, h :: (t in Grouped(s) && h in Grouped(s)[t]) <==> (t, h) in DistinctKeys(s)
    ensures NameCount(Grouped(s), DistinctKeys(s)) == |s|
  {
    if s != [] {
      var p, e := s[..|s| - 1], s[|s| - 1];
      GroupedTotal(p);
      InsertFacts(Grouped(p), e);
      var d := DistinctKeys(p);
      NameCountInsert(Grouped(p), e, d);
      if KeyOf(e) !in d {
        assert BucketOf(Grouped(p), KeyOf(e)) == [];
        var d' := d + [KeyOf(e)];
        assert d'[..|d'| - 1] == d;
        assert Distinct(d') by {
          forall i, j | 0 <= i < j < |d'| ensures d'[i] != d'[j] {
            if j < |d| { assert d'[i] == d[i] && d'[j] == d[j]; }
            else { assert d'[i] == d[i]; assert d[i] in d; }
          }
        }
      }
    }
  }

  /** The board of the index: every listed publicity with its grouped roster. */
  method PublicityBoard(ps: seq<GSuaPublicity>, now: Instant)
    returns (board: seq<(GSuaPublicity, Teams)>)
    ensures |board| == |IndexPublicities(ps, now)|
    ensures forall k :: 0 <= k < |board| ==>
      board[k] == (IndexPublicities(ps, now)[k], Grouped(IndexPublicities(ps, now)[k].roster))
  {
    var gsaps := IndexPublicities(ps, now);
    board := [];
    for k := 0 to |gsaps|
      invariant |board| == k
      invariant forall j :: 0 <= j < k ==> board[j] == (gsaps[j], Grouped(gsaps[j].roster))
    {
      var teams := GroupRoster(gsaps[k].roster);
      board := board + [(gsaps[k], teams)];
    }
  }

  datatype IndexPage = IndexPage(header: Header,
                                 suaList: seq<(nat, Sua)>,
                                 saList: seq<(nat, Application)>,
                                 apList: seq<(nat, Appeal)>,
                                 gsapList: seq<(GSuaPublicity, Teams)>)

  function ValidSuas(suas: seq<Sua>): seq<Sua>
  {
    Filter(suas, (s: Sua) => s.isValid)
  }

  /** `index` and `adminIndex`: the header, the three numbered histories of a
      student (empty for other users), and the board of open publicities. */
  method Index(usr: User, publicities: seq<GSuaPublicity>, now: Instant) returns (page: IndexPage)
    ensures usr.student.Some? ==>
      var stu := usr.student.value;
      && page.header == Header(stu.name, stu.number, Amount(stu.suahours))
      && IsNumbering(page.suaList, ValidSuas(stu.suas))
      && IsNumbering(page.saList, Present(stu.suasByApplicationDate))
      && IsNumbering(page.apList, stu.appeals)
    ensures usr.student.None? ==> page.suaList == [] && page.saList == [] && page.apList == []
    ensures usr.student.None? ==>
      && ParseFallbackName(page.header.name) == Some((usr.isStaff, usr.username))
      && page.header.number == NoNumber && page.header.suahours == Placeholder
    ensures |page.gsapList| == |IndexPublicities(publicities, now)|
    ensures forall k :: 0 <= k < |page.gsapList| ==>
      page.gsapList[k] == (IndexPublicities(publicities, now)[k],
                           Grouped(IndexPublicities(publicities, now)[k].roster))
  {
    var suaList: seq<(nat, Sua)> := [];
    var saList: seq<(nat, Application)> := [];
    var apList: seq<(nat, Appeal)> := [];
    if usr.student.Some? {
      var stu := usr.student.value;
      suaList := Number(ValidSuas(stu.suas));
      saList := NumberPresent(stu.suasByApplicationDate);
      apList := Number(stu.appeals);
    }
    var board := PublicityBoard(publicities, now);
    page := IndexPage(IndexHeader(usr), suaList, saList, apList, board);
    if usr.student.None? {
      FallbackHeaderRoundTrip(usr);
    }
  }

  // ---------------------------------------------------------------------------
  // Claim submission

  datatype SuaForm = SuaForm(valid: bool, activity: ActivityRef, team: string, hours: Hours)
  datatype ProofForm = ProofForm(valid: bool, isOffline: bool, file: Option<FileRef>)
  datatype ApplicationForm = ApplicationForm(valid: bool, detail: string)
  datatype ApplyForms = ApplyForms(sua: SuaForm, proof: ProofForm, application: ApplicationForm)

  predicate AllValid(f: ApplyForms)
  {
    f.sua.valid && f.proof.valid && f.application.valid
  }

  /** The first offline proof in store order. */
  function FirstOffline(proofs: seq<Proof>): (r: Option<Proof>)
    ensures r.None? <==> forall i :: 0 <= i < |proofs| ==> !proofs[i].isOffline
    ensures r.Some? ==> exists j :: 0 <= j < |proofs| && proofs[j] == r.value && r.value.isOffline
                                    && forall i :: 0 <= i < j ==> !proofs[i].isOffline
  {
    if proofs == [] then None
    else if proofs[0].isOffline then Some(proofs[0])
    else
      var r := FirstOffline(proofs[1..]);
      assert r.Some? ==> exists j :: 1 <= j < |proofs| && proofs[j] == r.value
                                     && forall i :: 0 <= i < j ==> !proofs[i].isOffline by {
        if r.Some? {
          var j :| 0 <= j < |proofs[1..]| && proofs[1..][j] == r.value
                   && forall i :: 0 <= i < j ==> !proofs[1..][i].isOffline;
          assert proofs[j + 1] == r.value;
          forall i | 0 <= i < j + 1 ensures !proofs[i].isOffline {
            if i > 0 { assert proofs[i] == proofs[1..][i - 1]; }
          }
        }
      }
      r
  }

  /** The offline proof an offline claim uses, as the view is written: the guard
      compares the bound method `count` with 0, which never holds, so the view
      always indexes the offline set and fails when it is empty. */
  function OfflineProofAsWritten(proofs: seq<Proof>): (r: Result<Proof>)
    ensures r.Err? <==> forall i :: 0 <= i < |proofs| ==> !proofs[i].isOffline
    ensures r.Err? ==> r.error == IndexError
    ensures r.Ok? ==> r.value.isOffline && r.value in proofs
    ensures r.Ok? ==> Some(r.value) == FirstOffline(proofs)
  {
    match FirstOffline(proofs)
    case None => Err(IndexError)
    case Some(p) => Ok(p)
  }

  /** The proof an offline claim uses, and whether the view creates it. */
  datatype ProofChoice = ProofChoice(proof: Proof, created: bool)

  /** Find-or-create of the shared offline proof, as intended: reuse the first
      offline proof; with none, create one owned by the first superuser, after
      asserting that a superuser exists. */
  function OfflineProof(proofs: seq<Proof>, superusers: seq<UserRef>, now: Instant): (r: Result<ProofChoice>)
    ensures r.Ok? ==> r.value.proof.isOffline
    ensures FirstOffline(proofs).Some? ==> r == Ok(ProofChoice(FirstOffline(proofs).value, false))
    ensures FirstOffline(proofs).None? ==>
      (r.Ok? <==> superusers != [])
      && (r.Ok? ==> r.value == ProofChoice(Proof(superusers[0], now, true, None), true))
      && (r.Err? ==> r.error == AssertionError)
  {
    match FirstOffline(proofs)
    case Some(p) => Ok(ProofChoice(p, false))
    case None =>
      if |superusers| == 0 then Err(AssertionError)
      else Ok(ProofChoice(Proof(superusers[0], now, true, None), true))
  }

  /** The view as written fails on the first offline claim ever made, where the
      intended find-or-create succeeds. */
  lemma OfflineProofFirstUse(superuser: UserRef, now: Instant)
    ensures OfflineProofAsWritten([]) == Err(IndexError)
    ensures OfflineProof([], [superuser], now) == Ok(ProofChoice(Proof(superuser, now, true, None), true))
  {
  }

  /** Both versions agree whenever an offline proof already exists. */
  lemma OfflineProofAgrees(proofs: seq<Proof>, superusers: seq<UserRef>, now: Instant)
    requires exists i :: 0 <= i < |proofs| && proofs[i].isOffline
    ensures OfflineProofAsWritten(proofs).Ok?
    ensures OfflineProof(proofs, superusers, now) == Ok(ProofChoice(OfflineProofAsWritten(proofs).value, false))
  {
  }

  ghost predicate AtMostOneOffline(proofs: seq<Proof>)
  {
    forall i, j :: 0 <= i < |proofs| && 0 <= j < |proofs| && proofs[i].isOffline && proofs[j].isOffline ==> i == j
  }

  /** The proofs in the store after a claim that used `c`. */
  function AfterUse(proofs: seq<Proof>, c: ProofChoice): seq<Proof>
  {
    if c.created then proofs + [c.proof] else proofs
  }

  /** Find-or-create keeps the offline proof a singleton, and a later offline
      claim reuses exactly the proof that an earlier one found or created. */
  lemma OfflineProofSingleton(proofs: seq<Proof>, superusers: seq<UserRef>, now: Instant, later: Instant)
    requires AtMostOneOffline(proofs)
    requires OfflineProof(proofs, superusers, now).Ok?
    ensures var c := OfflineProof(proofs, superusers, now).value;
      && AtMostOneOffline(AfterUse(proofs, c))
      && OfflineProof(AfterUse(proofs, c), superusers, later) == Ok(ProofChoice(c.proof, false))
  {
    var c := OfflineProof(proofs, superusers, now).value;
    var after := AfterUse(proofs, c);
    if c.created {
      assert forall i :: 0 <= i < |proofs| ==> after[i] == proofs[i] && !proofs[i].isOffline;
      assert after[|proofs|] == c.proof;
      var f := FirstOffline(after);
      assert f.Some? by { assert after[|proofs|].isOffline; }
      var j :| 0 <= j < |after| && after[j] == f.value && f.value.isOffline
               && forall i :: 0 <= i < j ==> !after[i].isOffline;
      assert j == |proofs|;
    } else {
      var f := FirstOffline(proofs);
      var j :| 0 <= j < |proofs| && proofs[j] == f.value && f.value.isOffline
               && forall i :: 0 <= i < j ==> !proofs[i].isOffline;
      assert c.proof == proofs[j];
    }
  }

  /** The records a successful submission writes: the proof when it is new, the
      sua, and the application. */
  datatype Submission = Submission(newProof: Option<Proof>, sua: Sua, application: Application)

  datatype ApplyPage = ApplyPage(header: Header, applyDate: DateTime, yearBefore: int, yearAfter: int)

  datatype ApplyOutcome =
    | Submitted(submission: Submission)  // the records are saved and the user is redirected
    | ApplyRendered(page: ApplyPage)      // the form page, nothing saved
    | ApplyCrashed(error: Crash)

  /** `apply_sua`. The page of a user without a student reads the unbound
      `suahours`, so every request of such a user fails. */
  method ApplySua(usr: User, isPost: bool, forms: ApplyForms, proofs: seq<Proof>,
                  superusers: seq<UserRef>, now: DateTime) returns (out: ApplyOutcome)
    ensures usr.student.None? ==> out == ApplyCrashed(NameError)
    ensures out.Submitted? <==>
      usr.student.Some? && isPost && AllValid(forms)
      && (forms.proof.isOffline ==> OfflineProof(proofs, superusers, now.instant).Ok?)
    ensures usr.student.Some? && !(isPost && AllValid(forms)) ==>
      var stu := usr.student.value;
      out == ApplyRendered(ApplyPage(Header(stu.name, stu.number, Amount(stu.suahours)), now,
                                     AcademicYear(now).0, AcademicYear(now).1))
    ensures out.ApplyCrashed? && usr.student.Some? ==> out.error == AssertionError
    ensures (usr.student.Some? && isPost && AllValid(forms) && forms.proof.isOffline
             && OfflineProof(proofs, superusers, now.instant).Err?) ==> out == ApplyCrashed(AssertionError)
    ensures out.Submitted? ==>
      var s := out.submission;
      && s.sua == Sua(usr.student.value.id, forms.sua.activity, forms.sua.team, forms.sua.hours, false, 0)
      && s.application == Application(s.sua, s.application.proof, now, false, forms.application.detail)
      && (!forms.proof.isOffline ==>
            s.newProof == Some(Proof(usr.id, now.instant, false, forms.proof.file))
            && s.application.proof == s.newProof.value)
      && (forms.proof.isOffline ==>
            var c := OfflineProof(proofs, superusers, now.instant).value;
            s.application.proof == c.proof && s.newProof == (if c.created then Some(c.proof) else None))
  {
    var span := AcademicYear(now);
    if usr.student.None? {
      return ApplyCrashed(NameError);
    }
    var stu := usr.student.value;
    if isPost && AllValid(forms) {
      var proof: Proof;
      var newProof: Option<Proof>;
      if forms.proof.isOffline {
        var found := OfflineProof(proofs, superusers, now.instant);
        if found.Err? {
          return ApplyCrashed(found.error);
        }
        proof := found.value.proof;
        newProof := if found.value.created then Some(proof) else None;
      } else {
        proof := Proof(usr.id, now.instant, false, forms.proof.file);
        newProof := Some(proof);
      }
      var sua := Sua(stu.id, forms.sua.activity, forms.sua.team, forms.sua.hours, false, 0);
      var application := Application(sua, proof, now, false, forms.application.detail);
      return Submitted(Submission(newProof, sua, application));
    }
    out := ApplyRendered(ApplyPage(Header(stu.name, stu.number, Amount(stu.suahours)), now, span.0, span.1));
  }

  // ---------------------------------------------------------------------------
  // Appeals

  datatype AppealForm = AppealForm(valid: bool, content: string)

  datatype AppealPage = AppealPage(header: Header, yearBefore: int, yearAfter: int,
                                   appealDate: DateTime, publicity: GSuaPublicity)

  datatype AppealOutcome =
    | AppealSaved(appeal: Appeal)
    | AppealRendered(page: AppealPage)
    | AppealCrashed(error: Crash)

  /** The appeal deadline of the first generation: the end instant is included. */
  predicate AppealWindowOpen(w: Window, now: Instant)
  {
    now <= w.end
  }

  /** `appeal_for`; `publicity` is the result of the lookup by `gsuap_id`. */
  method AppealFor(usr: User, isPost: bool, form: AppealForm, publicity: Option<GSuaPublicity>,
                   now: DateTime) returns (out: AppealOutcome)
    ensures publicity.None? ==> out == AppealCrashed(DoesNotExist)
    ensures publicity.Some? && usr.student.None? ==> out == AppealCrashed(NameError)
    ensures out.AppealSaved? <==>
      publicity.Some? && usr.student.Some? && isPost && form.valid && now.instant <= publicity.value.window.end
    ensures out.AppealSaved? ==>
      out.appeal == Appeal(usr.student.value.id, publicity.value.gsua, now.instant, false, "", form.content)
    ensures publicity.Some? && usr.student.Some? && !out.AppealSaved? ==>
      var stu := usr.student.value;
      out == AppealRendered(AppealPage(Header(stu.name, stu.number, Amount(stu.suahours)),
                                       AcademicYear(now).0, AcademicYear(now).1, now, publicity.value))
  {
    if publicity.None? {
      return AppealCrashed(DoesNotExist);
    }
    var gsuap := publicity.value;
    var span := AcademicYear(now);
    if usr.student.None? {
      return AppealCrashed(NameError);
    }
    var stu := usr.student.value;
    if isPost && form.valid && AppealWindowOpen(gsuap.window, now.instant) {
      var appeal := Appeal(stu.id, gsuap.gsua, now.instant, false, "", form.content);
      return AppealSaved(appeal);
    }
    out := AppealRendered(AppealPage(Header(stu.name, stu.number, Amount(stu.suahours)),
                                     span.0, span.1, now, gsuap));
  }

  /** An appeal is accepted wherever the index shows the publicity, and also at
      the end instant itself, where the index no longer shows it; the deadline
      ignores the publish flag and the begin date. */
  lemma AppealOutlastsIndex(w: Window, now: Instant)
    ensures ShownOnIndex(w, now) ==> AppealWindowOpen(w, now)
    ensures AppealWindowOpen(w, w.end) && !ShownOnIndex(w, w.end)
    ensures AppealWindowOpen(w, now) <==> AppealWindowOpen(w.(isPublished := false, begin := now + 1), now)
  {
  }

  // ---------------------------------------------------------------------------
  // Application detail page

  datatype DetailExtras = DetailExtras(yearBefore: int, yearAfter: int, name: string,
                                       number: string, suahours: Hours)

  /** The entries `ApplicationDetailView.get_context_data` adds: the academic year
      of the application's date and the user's header, with 0 hours for a user
      without a student. */
  function DetailContext(usr: User, sa: Application): (c: DetailExtras)
    ensures c.yearAfter == c.yearBefore + 1
    ensures c.yearBefore <= sa.date.year <= c.yearAfter
    ensures MonthNotAfter(c.yearBefore, 9, sa.date.year, sa.date.month)
    ensures !MonthNotAfter(c.yearAfter, 9, sa.date.year, sa.date.month)
    ensures (c.yearBefore, c.yearAfter) == AcademicYear(sa.date)
    ensures c.name == DisplayName(usr)
    ensures usr.student.Some? ==> c.number == usr.student.value.number && c.suahours == usr.student.value.suahours
    ensures usr.student.None? ==> c.number == NoNumber && c.suahours == 0
  {
    var span := AcademicYear(sa.date);
    match usr.student
    case Some(stu) => DetailExtras(span.0, span.1, stu.name, stu.number, stu.suahours)
    case None => DetailExtras(span.0, span.1, DisplayName(usr), NoNumber, 0)
  }
}
