/** The student-management page: its state cells and the handlers that update
    them after a request to the API succeeds or fails. */
module Home {
  import opened Records
  import opened StudentList
  import opened Decimal

  /** What a handler's request produced as the page sees it: the decoded body of
      a 2xx response, or a failure (a network error, or a non-2xx response that
      the HTTP client turns into an exception). */
  datatype Outcome<T> = Ok(value: T) | Failed

  /** The requests the page issues; `age` is the form's text before numeric
      conversion. */
  datatype ClientCall =
    | HelloCall
    | ListCall
    | FindCall(id: int)
    | CreateCall(name: string, age: string)
    | UpdateCall(id: int, name: string, age: string)
    | DeleteCall(id: int)

  /** A snapshot of every state cell of the page. */
  datatype State = State(
    message: string,
    students: seq<Student>,
    selectedStudent: Option<Student>,
    name: string,
    age: string,
    editingId: Option<int>,
    isLoading: bool,
    isAddDialogOpen: bool,
    isEditDialogOpen: bool,
    isDetailDialogOpen: bool)

  class Page {
    var message: string
    var students: seq<Student>
    var selectedStudent: Option<Student>
    var name: string
    var age: string
    var editingId: Option<int>
    var isLoading: bool
    var isAddDialogOpen: bool
    var isEditDialogOpen: bool
    var isDetailDialogOpen: bool

    ghost function Cells(): State
      reads this
    {
      State(message, students, selectedStudent, name, age, editingId,
            isLoading, isAddDialogOpen, isEditDialogOpen, isDetailDialogOpen)
    }

    /** The edit dialog is only ever open while a record is being edited. */
    ghost predicate Valid()
      reads this
    {
      isEditDialogOpen ==> editingId.Some?
    }

    /** The initial values of the state cells: empty list and form, nothing
        selected or edited, loading, every dialog closed. */
    constructor ()
      ensures Valid()
      ensures Cells() == State("", [], None, "", "", None, true, false, false, false)
    {
      message, students, selectedStudent := "", [], None;
      name, age, editingId := "", "", None;
      isLoading := true;
      isAddDialogOpen, isEditDialogOpen, isDetailDialogOpen := false, false, false;
    }

    /** The initial load: fetch the greeting, then the list. The list is asked
        for only once the greeting arrived; loading ends either way. */
    method FetchData(hello: Outcome<string>, list: Outcome<seq<Student>>) returns (sent: seq<ClientCall>)
      requires Valid()
      modifies this
      ensures Valid()
      ensures sent == if hello.Ok? then [HelloCall, ListCall] else [HelloCall]
      ensures !isLoading
      ensures Cells() == old(Cells()).(
                message := if hello.Ok? then hello.value else old(message),
                students := if hello.Ok? && list.Ok? then list.value else old(students),
                isLoading := false)
    {
      isLoading := true;
      sent := [HelloCall];
      if hello.Ok? {
        message := hello.value;
        sent := sent + [ListCall];
        if list.Ok? {
          students := list.value;
        }
      }
      isLoading := false;
    }

    /** Submitting the add form: on success the created record is appended,
        the form is cleared and the add dialog closes; on failure nothing
        changes. */
    method AddStudent(reply: Outcome<Student>) returns (sent: ClientCall)
      requires Valid()
      modifies this
      ensures Valid()
      ensures sent == CreateCall(old(name), old(age))
      ensures reply.Ok? ==> Cells() == old(Cells()).(
                students := old(students) + [reply.value],
                name := "", age := "",
                isAddDialogOpen := false)
      ensures reply.Failed? ==> Cells() == old(Cells())
    {
      sent := CreateCall(name, age);
      if reply.Ok? {
        students := students + [reply.value];
        name, age := "", "";
        isAddDialogOpen := false;
      }
    }

    /** Deleting a record: on success every entry with that id leaves the list
        and the selection is cleared if it is that record; on failure nothing
        changes. */
    method DeleteStudent(id: int, reply: Outcome<string>) returns (sent: ClientCall)
      requires Valid()
      modifies this
      ensures Valid()
      ensures sent == DeleteCall(id)
      ensures reply.Ok? ==> Cells() == old(Cells()).(
                students := WithoutId(old(students), id),
                selectedStudent :=
                  if old(selectedStudent).Some? && old(selectedStudent).value.id == id then None
                  else old(selectedStudent))
      ensures reply.Failed? ==> Cells() == old(Cells())
    {
      sent := DeleteCall(id);
      if reply.Ok? {
        students := WithoutId(students, id);
        if selectedStudent.Some? && selectedStudent.value.id == id {
          selectedStudent := None;
        }
      }
    }

    /** Starting to edit a record: its name and age text fill the form, its id
        becomes the one being edited and the edit dialog opens. */
    method EditStudent(student: Student)
      requires Valid()
      modifies this
      ensures Valid()
      ensures Cells() == old(Cells()).(
                name := student.name,
                age := ShowInt(student.age),
                editingId := Some(student.id),
                isEditDialogOpen := true)
    {
      name := student.name;
      age := ShowInt(student.age);
      editingId := Some(student.id);
      isEditDialogOpen := true;
    }

    /** Submitting the edit form: with no record being edited nothing is sent
        and nothing changes. Otherwise the form is sent for the edited id; on
        success every entry with that id becomes the returned record, the form
        is cleared, editing ends and the edit dialog closes; on failure nothing
        changes. */
    method UpdateStudent(reply: Outcome<Student>) returns (sent: Option<ClientCall>)
      requires Valid()
      modifies this
      ensures Valid()
      ensures old(editingId).None? ==> sent == None && Cells() == old(Cells())
      ensures old(isEditDialogOpen) ==> sent.Some?
      ensures old(editingId).Some? ==> sent == Some(UpdateCall(old(editingId).value, old(name), old(age)))
      ensures old(editingId).Some? && reply.Ok? ==> Cells() == old(Cells()).(
                students := ReplacedById(old(students), old(editingId).value, reply.value),
                name := "", age := "",
                editingId := None,
                isEditDialogOpen := false)
      ensures reply.Failed? ==> Cells() == old(Cells())
    {
      if editingId.None? {
        return None;
      }
      var id := editingId.value;
      sent := Some(UpdateCall(id, name, age));
      if reply.Ok? {
        students := ReplacedById(students, id, reply.value);
        name, age := "", "";
        editingId := None;
        isEditDialogOpen := false;
      }
    }

    /** Viewing a record: on success the fetched record becomes the selection
        and the detail dialog opens; on failure nothing changes. */
    method ViewStudent(id: int, reply: Outcome<Student>) returns (sent: ClientCall)
      requires Valid()
      modifies this
      ensures Valid()
      ensures sent == FindCall(id)
      ensures reply.Ok? ==> Cells() == old(Cells()).(
                selectedStudent := Some(reply.value),
                isDetailDialogOpen := true)
      ensures reply.Failed? ==> Cells() == old(Cells())
    {
      sent := FindCall(id);
      if reply.Ok? {
        selectedStudent := Some(reply.value);
        isDetailDialogOpen := true;
      }
    }

    /** Typing into the name field of the add or edit form. */
    method SetName(text: string)
      requires Valid()
      modifies this
      ensures Valid()
      ensures Cells() == old(Cells()).(name := text)
    {
      name := text;
    }

    /** Typing into the age field of the add or edit form. */
    method SetAge(text: string)
      requires Valid()
      modifies this
      ensures Valid()
      ensures Cells() == old(Cells()).(age := text)
    {
      age := text;
    }

    /** Opening the add dialog: the form is cleared; the record being edited,
        if any, is left as it was. */
    method OpenAddDialog()
      requires Valid()
      modifies this
      ensures Valid()
      ensures Cells() == old(Cells()).(name := "", age := "", isAddDialogOpen := true)
    {
      name, age := "", "";
      isAddDialogOpen := true;
    }
  }
}
