/** The per-action configuration of the student viewset
    (`project/sua/views/form/views2.py`): template, serializer class and
    permission classes chosen by the action name, and the soft-delete filter of
    its queryset. */
module StudentViewSet {
  import opened Common

  const FormTemplate: string := "sua/student_form.html"
  const DetailTemplate: string := "sua/student_detail.html"

  datatype SerializerClass = AddStudentSerializer | DetailOfStudentSerializer

  datatype PermissionClass = IsAdminUser | IsTheStudentOrIsAdminUser | IsAdminUserOrReadOnly

  /** An instance of a permission class. */
  datatype Permission = Permission(cls: PermissionClass)

  /** The class-level `serializer_class`. */
  const DefaultSerializer: SerializerClass := AddStudentSerializer

  predicate IsFormAction(action: string)
  {
    action == "add" || action == "change"
  }

  /** `get_template_names`; `None` when no branch returns. */
  function TemplateNames(action: string): (r: Option<seq<string>>)
    ensures r.Some? <==> IsFormAction(action) || action == "detail"
    ensures IsFormAction(action) ==> r == Some([FormTemplate])
    ensures action == "detail" ==> r == Some([DetailTemplate])
  {
    if IsFormAction(action) then Some([FormTemplate])
    else if action == "detail" then Some([DetailTemplate])
    else None
  }

  /** `get_serializer_class`. */
  function SerializerClassFor(action: string): (r: SerializerClass)
    ensures r == DetailOfStudentSerializer <==> action == "detail"
  {
    if IsFormAction(action) then AddStudentSerializer
    else if action == "detail" then DetailOfStudentSerializer
    else DefaultSerializer
  }

  function PermissionClasses(action: string): seq<PermissionClass>
  {
    if IsFormAction(action) then [IsAdminUser]
    else if action == "detail" then [IsTheStudentOrIsAdminUser]
    else [IsAdminUserOrReadOnly]
  }

  /** `get_permissions`: one instance per permission class. */
  function Permissions(action: string): (r: seq<Permission>)
    ensures |r| == 1
    ensures r[0].cls == IsAdminUser <==> IsFormAction(action)
    ensures r[0].cls == IsTheStudentOrIsAdminUser <==> action == "detail"
  {
    var classes := PermissionClasses(action);
    seq(|classes|, i requires 0 <= i < |classes| => Permission(classes[i]))
  }

  /** The three tables agree: the form actions render the form and are for
      staff only; `detail` renders the detail page with the detail serializer
      for the student or staff; every other action has no template and is
      read-only for non-staff. */
  lemma ActionTablesAgree(action: string)
    ensures TemplateNames(action) == Some([FormTemplate])
            <==> Permissions(action) == [Permission(IsAdminUser)]
    ensures TemplateNames(action) == Some([DetailTemplate])
            <==> SerializerClassFor(action) == DetailOfStudentSerializer
    ensures TemplateNames(action) == Some([DetailTemplate])
            <==> Permissions(action) == [Permission(IsTheStudentOrIsAdminUser)]
    ensures TemplateNames(action).None?
            <==> Permissions(action) == [Permission(IsAdminUserOrReadOnly)]
  {
    var p := Permissions(action);
    assert p == [p[0]];
  }

  datatype Student = Student(id: nat, name: string, grade: string, classtype: string,
                             deletedAt: Option<Instant>)

  /** `queryset`: the students that are not soft-deleted, in store order. */
  function Queryset(students: seq<Student>): (r: seq<Student>)
    ensures forall i :: 0 <= i < |r| ==> r[i].deletedAt.None? && r[i] in students
    ensures forall i :: 0 <= i < |students| ==> (students[i].deletedAt.None? ==> students[i] in r)
  {
    Filter(students, (s: Student) => s.deletedAt.None?)
  }
}
