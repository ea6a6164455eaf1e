/** The employee manager view: its state and the handlers that change it.
    Every HTTP exchange is an input to the handler that awaits it: the
    handler is given the outcome of its request and returns the requests it
    issued, in order. The list refresh that add, update and delete start
    without awaiting it is split in two steps: StartFetchAll, which runs at
    once, and FinishFetchAll, which runs when the list response arrives. */
module Manager {
  import opened Values
  import opened Records
  import opened Messages

  /** How a request ends: a response with `response.ok` and its body read,
      a response without `response.ok` and its status, or an exception (the
      request failed, or its body could not be read or parsed). */
  datatype Outcome<B> = Ok(body: B) | HttpError(status: nat) | NetworkError

  /** The parsed body of a successful list response. */
  datatype ListBody = Array(records: seq<Record>) | NotArray

  /** The requests the component issues, with what they carry. */
  datatype Request =
    | ListAll
    | Add(body: Record)
    | Update(body: Record)
    | Delete(id: Value)
    | Get(lookupId: string)

  class EmployeeManager {
    var employees: seq<Record>
    var employee: Record
    var idToFetch: string
    var fetchedEmployee: Option<Record>
    var message: string
    var editMode: bool
    var loading: bool
    /** List requests issued and not yet answered. */
    ghost var listRequestsInFlight: nat

    /** The list is marked loading only while a list request is in flight. */
    ghost predicate Valid()
      reads this
    {
      loading ==> listRequestsInFlight > 0
    }

    /** The state as the component first renders it. */
    constructor ()
      ensures Valid()
      ensures employees == [] && employee == EmptyDraft() && idToFetch == ""
      ensures fetchedEmployee == None && message == "" && !editMode && !loading
      ensures listRequestsInFlight == 0
    {
      employees := [];
      employee := EmptyDraft();
      idToFetch := "";
      fetchedEmployee := None;
      message := "";
      editMode := false;
      loading := false;
      listRequestsInFlight := 0;
    }

    /** The part of `fetchAllEmployees` that runs before its first await:
        the list is marked loading and the list request is sent. */
    method StartFetchAll() returns (sent: Request)
      requires Valid()
      modifies this`loading, this`listRequestsInFlight
      ensures Valid()
      ensures sent == ListAll && loading
      ensures listRequestsInFlight == old(listRequestsInFlight) + 1
    {
      loading := true;
      listRequestsInFlight := listRequestsInFlight + 1;
      sent := ListAll;
    }

    /** The rest of `fetchAllEmployees`, once its response is in. Every exit,
        the `finally` included, leaves the list no longer loading. */
    method FinishFetchAll(outcome: Outcome<ListBody>)
      requires Valid() && listRequestsInFlight > 0
      modifies this`employees, this`message, this`loading, this`listRequestsInFlight
      ensures Valid() && !loading
      ensures listRequestsInFlight == old(listRequestsInFlight) - 1
      ensures outcome.Ok? && outcome.body.Array? ==>
        employees == outcome.body.records && message == old(message)
      ensures outcome.Ok? && outcome.body.NotArray? ==>
        employees == [] && message == InvalidFormatMessage
      ensures outcome.HttpError? ==>
        employees == [] && message == ServerReturnedMessage(outcome.status)
      ensures outcome.NetworkError? ==>
        employees == [] && message == ConnectFailedMessage
    {
      match outcome {
        case Ok(Array(records)) =>
          employees := records;
        case Ok(NotArray) =>
          employees := [];
          message := InvalidFormatMessage;
        case HttpError(status) =>
          employees := [];
          message := ServerReturnedMessage(status);
        case NetworkError =>
          employees := [];
          message := ConnectFailedMessage;
      }
      loading := false;
      listRequestsInFlight := listRequestsInFlight - 1;
    }

    /** `fetchAllEmployees` with its response arriving before any other
        handler runs. */
    method FetchAllEmployees(outcome: Outcome<ListBody>) returns (sent: seq<Request>)
      requires Valid()
      modifies this`employees, this`message, this`loading, this`listRequestsInFlight
      ensures Valid() && !loading && sent == [ListAll]
      ensures listRequestsInFlight == old(listRequestsInFlight)
      ensures outcome.Ok? && outcome.body.Array? ==>
        employees == outcome.body.records && message == old(message)
      ensures outcome.Ok? && outcome.body.NotArray? ==>
        employees == [] && message == InvalidFormatMessage
      ensures outcome.HttpError? ==>
        employees == [] && message == ServerReturnedMessage(outcome.status)
      ensures outcome.NetworkError? ==>
        employees == [] && message == ConnectFailedMessage
    {
      var request := StartFetchAll();
      FinishFetchAll(outcome);
      sent := [request];
    }

    /** `validateForm`: visits the draft's fields in order and stops at the
        first one the form rejects, naming it in the message. */
    method ValidateForm() returns (valid: bool)
      requires Valid()
      modifies this`message
      ensures Valid()
      ensures valid <==> FirstBlank(employee) == None
      ensures valid ==> message == old(message)
      ensures !valid ==>
        message == MissingFieldMessage(employee[FirstBlank(employee).value].0)
    {
      var i := 0;
      while i < |employee|
        invariant 0 <= i <= |employee|
        invariant forall j :: 0 <= j < i ==> !Blank(employee[j].1)
        invariant message == old(message)
      {
        var (key, value) := employee[i];
        if Falsy(value) || Trim(Text(value)) == "" {
          message := MissingFieldMessage(key);
          return false;
        }
        i := i + 1;
      }
      return true;
    }

    /** `addEmployee`: nothing is sent for a draft the form rejects; a
        successful add starts a list refresh and clears the form; a failed
        one leaves the draft as it was. */
    method AddEmployee(outcome: Outcome<()>) returns (sent: seq<Request>)
      requires Valid()
      modifies this`message, this`employee, this`editMode, this`loading,
        this`listRequestsInFlight
      ensures Valid()
      ensures FirstBlank(old(employee)).Some? ==>
        sent == [] &&
        message == MissingFieldMessage(old(employee)[FirstBlank(old(employee)).value].0) &&
        employee == old(employee) && editMode == old(editMode) &&
        loading == old(loading) && listRequestsInFlight == old(listRequestsInFlight)
      ensures FirstBlank(old(employee)).None? && outcome.Ok? ==>
        sent == [Add(old(employee)), ListAll] && message == AddedMessage &&
        employee == EmptyDraft() && !editMode &&
        loading && listRequestsInFlight == old(listRequestsInFlight) + 1
      ensures FirstBlank(old(employee)).None? && !outcome.Ok? ==>
        sent == [Add(old(employee))] && message == AddErrorMessage &&
        employee == old(employee) && editMode == old(editMode) &&
        loading == old(loading) && listRequestsInFlight == old(listRequestsInFlight)
    {
      var valid := ValidateForm();
      if !valid {
        return [];
      }
      sent := [Add(employee)];
      if outcome.Ok? {
        message := AddedMessage;
        var refresh := StartFetchAll();
        sent := sent + [refresh];
        ResetForm();
      } else {
        message := AddErrorMessage;
      }
    }

    /** `updateEmployee`: as `addEmployee`, with the update request and its
        own messages. */
    method UpdateEmployee(outcome: Outcome<()>) returns (sent: seq<Request>)
      requires Valid()
      modifies this`message, this`employee, this`editMode, this`loading,
        this`listRequestsInFlight
      ensures Valid()
      ensures FirstBlank(old(employee)).Some? ==>
        sent == [] &&
        message == MissingFieldMessage(old(employee)[FirstBlank(old(employee)).value].0) &&
        employee == old(employee) && editMode == old(editMode) &&
        loading == old(loading) && listRequestsInFlight == old(listRequestsInFlight)
      ensures FirstBlank(old(employee)).None? && outcome.Ok? ==>
        sent == [Update(old(employee)), ListAll] && message == UpdatedMessage &&
        employee == EmptyDraft() && !editMode &&
        loading && listRequestsInFlight == old(listRequestsInFlight) + 1
      ensures FirstBlank(old(employee)).None? && !outcome.Ok? ==>
        sent == [Update(old(employee))] && message == UpdateErrorMessage &&
        employee == old(employee) && editMode == old(editMode) &&
        loading == old(loading) && listRequestsInFlight == old(listRequestsInFlight)
    {
      var valid := ValidateForm();
      if !valid {
        return [];
      }
      sent := [Update(employee)];
      if outcome.Ok? {
        message := UpdatedMessage;
        var refresh := StartFetchAll();
        sent := sent + [refresh];
        ResetForm();
      } else {
        message := UpdateErrorMessage;
      }
    }

    /** `deleteEmployee(id)`: a successful delete shows the server's text as
        it is and starts a list refresh; the draft and the mode are never
        touched. */
    method DeleteEmployee(id: Value, outcome: Outcome<string>) returns (sent: seq<Request>)
      requires Valid()
      modifies this`message, this`loading, this`listRequestsInFlight
      ensures Valid()
      ensures outcome.Ok? ==>
        sent == [Delete(id), ListAll] && message == outcome.body &&
        loading && listRequestsInFlight == old(listRequestsInFlight) + 1
      ensures !outcome.Ok? ==>
        sent == [Delete(id)] && message == DeleteErrorMessage &&
        loading == old(loading) && listRequestsInFlight == old(listRequestsInFlight)
    {
      sent := [Delete(id)];
      match outcome
      case Ok(text) =>
        message := text;
        var refresh := StartFetchAll();
        sent := sent + [refresh];
      case _ =>
        message := DeleteErrorMessage;
    }

    /** `getEmployeeById`: looks up the id typed in the lookup box, not the
        draft's id. */
    method GetEmployeeById(outcome: Outcome<Record>) returns (sent: seq<Request>)
      requires Valid()
      modifies this`fetchedEmployee, this`message
      ensures Valid()
      ensures sent == [Get(idToFetch)]
      ensures outcome.Ok? ==> fetchedEmployee == Some(outcome.body) && message == ""
      ensures outcome.HttpError? ==> fetchedEmployee == None && message == NotFoundMessage
      ensures outcome.NetworkError? ==> fetchedEmployee == None && message == FetchErrorMessage
    {
      sent := [Get(idToFetch)];
      match outcome
      case Ok(record) =>
        fetchedEmployee := Some(record);
        message := "";
      case HttpError(_) =>
        fetchedEmployee := None;
        message := NotFoundMessage;
      case NetworkError =>
        fetchedEmployee := None;
        message := FetchErrorMessage;
    }

    /** `handleEdit(emp)`: the draft becomes the record itself, keys and
        order included. */
    method HandleEdit(emp: Record)
      requires Valid()
      modifies this`employee, this`editMode, this`message
      ensures Valid()
      ensures employee == emp && editMode && message == EditingMessage(emp)
    {
      employee := emp;
      editMode := true;
      message := EditingMessage(emp);
    }

    /** `resetForm`: back to the blank draft and to adding; the message stays. */
    method ResetForm()
      requires Valid()
      modifies this`employee, this`editMode
      ensures Valid()
      ensures employee == EmptyDraft() && !editMode
    {
      employee := EmptyDraft();
      editMode := false;
    }

    /** `handleChange`: an input writes its text under its own name. */
    method HandleChange(name: string, value: string)
      requires Valid()
      modifies this`employee
      ensures Valid()
      ensures employee == WithField(old(employee), name, Str(value))
      ensures Lookup(employee, name) == Some(Str(value))
      ensures forall k :: k != name ==> Lookup(employee, k) == Lookup(old(employee), k)
    {
      WithFieldLookupSame(employee, name, Str(value));
      forall k | k != name
        ensures Lookup(WithField(employee, name, Str(value)), k) == Lookup(employee, k)
      {
        WithFieldLookupOther(employee, name, Str(value), k);
      }
      employee := WithField(employee, name, Str(value));
    }

    /** The lookup box's change handler. */
    method SetIdToFetch(value: string)
      requires Valid()
      modifies this`idToFetch
      ensures Valid()
      ensures idToFetch == value
    {
      idToFetch := value;
    }
  }
}
