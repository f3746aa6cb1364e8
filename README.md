# SUA view logic, modelled in Dafny

This project models the business rules inside the view functions of the SUA
(student community-service hours) application. It covers both generations of its
views:

- `Dedekind/sua/views.py` (module `DedekindViews`):
  - the student and staff index pages: the page header with its display-name
    fallback, the three 1-based history lists, the publicity filter with an
    exclusive end, and the roster grouping team → hours → names;
  - claim submission `apply_sua`, including the academic-year span and the
    shared offline proof;
  - the appeal page `appeal_for`, whose deadline includes the end instant;
  - the extra context of the application detail page.
- `project/sua/views/student.py` (module `StudentViews`): the index context with
  an inclusive publicity filter and keys that depend on the user's role, appeal
  submission with no deadline, the export context, and the PDF export as a log
  of `drawString` calls on a canvas object.
- `project/sua/views/form/base.py` (module `FormBase`): the loop that builds a
  viewset's context from its components and the extra context, and the GET
  branch of `change`.
- `project/sua/views/form/views2.py` (module `StudentViewSet`): the per-action
  template, serializer and permission tables, and the soft-delete queryset.

`Common` holds what the modules share. That is optional values, the exceptions a
request can end in, points in time, hours and publicity windows. It also holds
`Filter`, which stands for the filtering the views ask the store to do.

An ORM query is modelled as an input sequence, already in the order the view asks
for. Each `save()` is a record in the returned outcome. `timezone.now()` is a
parameter: an instant, plus its calendar year and month where the view reads them.
Hours are floats in the store. Here they are whole tenths of an hour.

The model follows the code where it departs from the workflow as it is usually described:

- The newer index lists a publicity through the end instant inclusive
  (`end__gte`). Only the older index excludes the end.
- The newer appeal endpoint has no deadline at all. Only the older appeal page
  checks `now <= end`.
- `apply_sua` does not reject negative hours or invalid activities itself. That is
  left to the forms, whose validation is an input flag here.

## Model

| member | source | states |
|---|---|---|
| `DedekindViews.FallbackHeaderRoundTrip` | Dedekind/sua/views.py:66-72 | for a user without a student, the staff flag and user name can be read back from the `Admin.`/`NoStuInfo.` name; number is `------`, hours `-.-` |
| `DedekindViews.AcademicYear` | Dedekind/sua/views.py:117-125 | the span is consecutive years, contains the date's year, and starts at the last September not after the date |
| `DedekindViews.AcademicYearUnique` | Dedekind/sua/views.py:117-125 | no other year's September-to-August span contains the date |
| `DedekindViews.Number` | Dedekind/sua/views.py:51-54 | the loop pairs every element, in order, with its 1-based position |
| `DedekindViews.NumberPresent` | Dedekind/sua/views.py:55-59 | only suas with an application are listed, numbered 1, 2, … with no gaps |
| `DedekindViews.IndexPublicities` | Dedekind/sua/views.py:74-78 | a publicity is listed iff it is published and `begin <= now < end` |
| `DedekindViews.GroupRoster` | Dedekind/sua/views.py:79-89 | the loop that mutates the nested dict computes the fold `Grouped` of the roster |
| `DedekindViews.GroupedShape` | Dedekind/sua/views.py:81-89 | a team key exists iff some sua has that team; an hours key under it iff some sua has both; each bucket holds exactly those suas' names in roster order |
| `DedekindViews.BucketSorted` | Dedekind/sua/views.py:81-89 | with the roster ordered by (team, hours, name), every bucket is sorted by name |
| `DedekindViews.GroupedTotal` | Dedekind/sua/views.py:83-89 | the buckets are exactly the roster's distinct (team, hours) keys and hold as many names as there are suas |
| `DedekindViews.PublicityBoard` | Dedekind/sua/views.py:79-90 | one board entry per listed publicity, in order, paired with its grouped roster |
| `DedekindViews.Index` | Dedekind/sua/views.py:39-99 | header: a student's own name, number and hours, and for other users a fallback name from which the staff flag and user name can be read back, with the `------`/`-.-` placeholders (46-50, 66-72); for a student the numbered valid suas, applications and appeals, and empty lists otherwise; the board of open publicities (`adminIndex`, 296-356, is the same) |
| `DedekindViews.FirstOffline` | Dedekind/sua/views.py:141 | returns the first offline proof in store order, or nothing iff there is none |
| `DedekindViews.OfflineProofAsWritten` | Dedekind/sua/views.py:140-151 | as written: reuses the first offline proof and fails with `IndexError` iff there is none |
| `DedekindViews.OfflineProof` | Dedekind/sua/views.py:140-151 | find-or-create: reuse the first offline proof; else create one for the first superuser at `now`; `AssertionError` when there is no superuser |
| `DedekindViews.OfflineProofFirstUse` | Dedekind/sua/views.py:142-151 | with no offline proof, the code as written fails where find-or-create succeeds |
| `DedekindViews.OfflineProofAgrees` | Dedekind/sua/views.py:150-151 | when an offline proof exists, both versions reuse the same proof |
| `DedekindViews.OfflineProofSingleton` | Dedekind/sua/views.py:140-151 | find-or-create keeps at most one offline proof, and a later offline claim reuses it |
| `DedekindViews.ApplySua` | Dedekind/sua/views.py:102-190 | saves only on POST with all three forms valid and a student; the sua has that student, `is_valid = False` and `last_time_suahours = 0`; the application is linked to sua and proof, dated `now`, unchecked; an online proof gets `user = usr` and `date = now`; a page render shows the academic year; a non-student always fails; an offline claim follows the corrected find-or-create of the shared proof (see Findings) and fails with `AssertionError` when that proof is missing and there is no superuser |
| `DedekindViews.AppealFor` | Dedekind/sua/views.py:193-248 | saves iff the publicity exists, the form is valid, the user is a student and `now <= end`; the appeal has that student, `date = now`, the publicity's gsua, `is_checked = False`, `feedback = ''` |
| `DedekindViews.AppealOutlastsIndex` | Dedekind/sua/views.py:225 | every instant the index shows a publicity is open for appeals, and so is the end instant; the deadline ignores the publish flag and the begin date |
| `DedekindViews.DetailContext` | Dedekind/sua/views.py:262-293 | exactly the academic year of the application's date (the span starting at the last September not after it), the display name, and 0 hours for a user without a student |
| `StudentViews.IndexPublicities` | project/sua/views/student.py:34-38 | a publicity is listed iff it is published and `begin <= now <= end` |
| `StudentViews.IndexWindowsDiffer` | project/sua/views/student.py:34-38 | the newer index lists everything the older one does; they differ exactly at `now == end` of a published, begun window |
| `StudentViews.ValidSuas` | project/sua/views/student.py:59-63 | only valid suas, and every valid sua |
| `StudentViews.IndexSerialize` | project/sua/views/student.py:29-76 | `publicities` and `applications` are always added; `suas` (valid only) and `appeals` only for a student; other base keys unchanged |
| `StudentViews.AppealDeserialize` | project/sua/views/student.py:120-133 | a non-student fails the assertion; returns True iff the serializer is valid; saves with the looked-up publicity, `owner = user`, `student = user.student`; no date check |
| `StudentViews.NewAppealIgnoresDeadline` | project/sua/views/student.py:120-133 | past the end of the window, the older deadline is closed but the newer endpoint still saves |
| `StudentViews.ExportSerialize` | project/sua/views/student.py:143-165 | for a student adds the valid suas, name, number and hours; for others fails with the unbound name |
| `StudentViews.Canvas.DrawString` | project/sua/views/student.py:190-211 | each `drawString` appends one `(x, y, text)` call to the canvas log |
| `StudentViews.DrawSection` | project/sua/views/student.py:196-212 | draws the column heading on row 670, then the loop draws the cells from `location = 650` down by 50 per sua |
| `StudentViews.Download` | project/sua/views/student.py:169-220 | the draw log is the export layout of the user's valid suas; without a student, fails |
| `StudentViews.ColumnAt` | project/sua/views/student.py:196-212 | a column has one cell per sua, cell i at `y = 650 - 50 i` |
| `StudentViews.ExportLayoutShape` | project/sua/views/student.py:187-209 | three header lines, then headings "Title", "Group", "Suahours" at y = 670 with x = 40, 240, 440 |
| `StudentViews.RowsAligned` | project/sua/views/student.py:196-212 | row i shows the i-th valid sua's title, group and `str(hours)+'h'` at one common `y = 650 - 50 i` |
| `FormBase.ContextSpec` | project/sua/views/form/base.py:26-35 | the keys are the component keys plus the extra keys; extra values win on a collision; other keys hold the component's handler result |
| `FormBase.ContextWithoutExtra` | project/sua/views/form/base.py:28 | with the extra context omitted, the result is exactly the components |
| `FormBase.GetContext` | project/sua/views/form/base.py:26-35 | the loop with its never-failing duplicate-key assertion builds `ContextSpec` |
| `FormBase.ChangeGet` | project/sua/views/form/base.py:70-76 | GET returns exactly `serializer` and `extra_data`, which is `None` by default (`get_extra_data`, 93-94) |
| `FormBase.ChangeGetSkipsComponents` | project/sua/views/form/base.py:73-77 | a component such as `nav` would be in `get_context`'s result but is absent, because the `get_context` line is never reached |
| `StudentViewSet.TemplateNames` | project/sua/views/form/views2.py:18-22 | a single template for `add`, `change` and `detail`, `None` for any other action |
| `StudentViewSet.SerializerClassFor` | project/sua/views/form/views2.py:24-30 | the detail serializer iff the action is `detail`, `AddStudentSerializer` otherwise |
| `StudentViewSet.Permissions` | project/sua/views/form/views2.py:32-40 | exactly one permission; `IsAdminUser` iff `add`/`change`, `IsTheStudentOrIsAdminUser` iff `detail` |
| `StudentViewSet.ActionTablesAgree` | project/sua/views/form/views2.py:18-40 | form template ⇔ admin only; detail template ⇔ detail serializer ⇔ student-or-admin; no template ⇔ admin-or-read-only |
| `StudentViewSet.Queryset` | project/sua/views/form/views2.py:15 | exactly the students whose `deletedAt` is `None` |

## Findings

| source | as written | input that shows it | evidently intended | confidence | as-written member | corrected member |
|---|---|---|---|---|---|---|
| Dedekind/sua/views.py:142 | `offlineProofSet.count == 0` compares the bound method with 0, which is never true. The view therefore always takes `offlineProofSet[0]`. | The first offline claim ever, when the store has no offline proof. `[0]` raises `IndexError`. | `count() == 0`: create the shared offline proof for the first superuser, then reuse it (find-or-create). Line 143's assertion also needs `count()`. | high, not executed | `DedekindViews.OfflineProofAsWritten`, shown by `DedekindViews.OfflineProofFirstUse` | `DedekindViews.OfflineProof`, with `DedekindViews.OfflineProofSingleton`, used by `DedekindViews.ApplySua` |

## Left out

- Login, logout and session expiry (`Dedekind/sua/views.py:12-36`) and `@login_required`: these are the framework's authentication.
- The ORM: querying, `order_by` and saving. Query results are input sequences in the requested order, and saved records are outputs. The roster's name order is taken as code-point lexicographic order. The store's collation may order names differently.
- Template rendering, `HttpResponseRedirect`, `Response`, and the POST branches of `add` and `change`. These are framework plumbing. Rendered pages are returned as the values they display.
- `list`, `detail` and `add` on GET (`project/sua/views/form/base.py:37-56`): each is `get_context` with a `serializer` extra context, and `FormBase.GetContext` covers that.
- `delete`, `perform_*` and `get_delete_response` in `base.py`: these are ORM calls and redirects.
- `ApplicationDetailView.get_queryset` (`Dedekind/sua/views.py:256-260`): this is an ORM filter.
- ReportLab: fonts, `drawImage`, `showPage` and the PDF bytes. Only `drawString` calls are in the log.
- `str(user)` is taken to be the user name. `str(group)` is the serializer's text for the group.
- Float hours: hours are integer tenths, and `str` of hours is written as `<whole>.<tenth>`. Python's exponent form for very large floats is not modelled.
- The race between concurrent first offline claims: it needs concurrency, which this model does not have. `DedekindViews.OfflineProofSingleton` covers sequential claims only.
- `print` calls, and the base views' own context (`BaseView.serialize`, `NavMixin`). Those files are not part of this model, so their context is an input map.
- Form and serializer validation: each form carries a valid flag and its cleaned fields.
- `AppealView.serialize` (`project/sua/views/student.py:109-118`): it looks up the publicity and builds serializers for the appeal page, which is serializer plumbing. `deserialize` does its one lookup at line 129; its result is an input.
- Each window query calls `timezone.now()` twice, once for the begin bound and once for the end bound (`Dedekind/sua/views.py:76-77`, `project/sua/views/student.py:36-37`). The model compares both bounds with one instant, so a clock tick between the two calls is not modelled.
- `Download` (`project/sua/views/student.py:169`) has no `@login_required`. For an anonymous user, `user.student` at line 173 raises `AttributeError`. The model has no anonymous user: every request carries a `User`, and one without a student ends in `RelatedObjectDoesNotExist`.
- `DedekindViews.ApplySua`: the offline branch follows the corrected find-or-create `DedekindViews.OfflineProof` and not the code as written. On the first offline claim ever, the source raises `IndexError` at `Dedekind/sua/views.py:151`; that behaviour is `DedekindViews.OfflineProofAsWritten`.
