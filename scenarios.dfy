/** Runs of the employee manager from its first render, each a sequence of
    handlers with given outcomes, and what the component shows at the end. */
module Scenarios {
  import opened Values
  import opened Records
  import opened Messages
  import opened Manager

  /** Adding straight away sends nothing: the blank draft is rejected on its
      first field, and stays as it is. */
  method AddBlankDraft(outcome: Outcome<()>) returns (sent: seq<Request>, message: string, draft: Record)
    ensures sent == [] && message == MissingFieldMessage("id") && draft == EmptyDraft()
  {
    var view := new EmployeeManager();
    EmptyDraftFailsOnId();
    sent := view.AddEmployee(outcome);
    message, draft := view.message, view.employee;
  }

  /** Editing a record and then cancelling returns to the blank draft and to
      adding, keeps the editing message, and sends nothing. */
  method EditThenCancel(emp: Record) returns (draft: Record, editing: bool, message: string)
    ensures draft == EmptyDraft() && !editing && message == EditingMessage(emp)
  {
    var view := new EmployeeManager();
    view.HandleEdit(emp);
    view.ResetForm();
    draft, editing, message := view.employee, view.editMode, view.message;
  }

  /** Editing a complete record and updating it successfully sends the
      record, then the list request; once the list arrives it is shown in the
      server's order, the success message stays and nothing is loading. */
  method EditUpdateRefresh(emp: Record, items: seq<Record>)
    returns (sent: seq<Request>, employees: seq<Record>, message: string,
             draft: Record, editing: bool, loading: bool)
    requires FirstBlank(emp) == None
    ensures sent == [Update(emp), ListAll]
    ensures employees == items && message == UpdatedMessage
    ensures draft == EmptyDraft() && !editing && !loading
  {
    var view := new EmployeeManager();
    view.HandleEdit(emp);
    sent := view.UpdateEmployee(Ok(()));
    view.FinishFetchAll(Ok(Array(items)));
    employees, message := view.employees, view.message;
    draft, editing, loading := view.employee, view.editMode, view.loading;
  }

  /** A successful delete shows the server's text; the refresh it starts
      keeps that text when the list arrives and overwrites it when the list
      request fails. */
  method DeleteThenRefresh(id: Value, text: string, refresh: Outcome<ListBody>)
    returns (sent: seq<Request>, message: string, employees: seq<Record>, loading: bool)
    ensures sent == [Delete(id), ListAll] && !loading
    ensures refresh.Ok? && refresh.body.Array? ==>
      message == text && employees == refresh.body.records
    ensures refresh.Ok? && refresh.body.NotArray? ==>
      message == InvalidFormatMessage && employees == []
    ensures refresh.HttpError? ==>
      message == ServerReturnedMessage(refresh.status) && employees == []
    ensures refresh.NetworkError? ==>
      message == ConnectFailedMessage && employees == []
  {
    var view := new EmployeeManager();
    sent := view.DeleteEmployee(id, Ok(text));
    view.FinishFetchAll(refresh);
    message, employees, loading := view.message, view.employees, view.loading;
  }

  /** A failed lookup clears the record an earlier lookup found, and the
      list shown stays the one loaded before. */
  method LookupThenMiss(items: seq<Record>, found: Record, status: nat)
    returns (fetched: Option<Record>, message: string, employees: seq<Record>)
    ensures fetched == None && message == NotFoundMessage && employees == items
  {
    var view := new EmployeeManager();
    var _ := view.FetchAllEmployees(Ok(Array(items)));
    var _ := view.GetEmployeeById(Ok(found));
    var _ := view.GetEmployeeById(HttpError(status));
    fetched, message, employees := view.fetchedEmployee, view.message, view.employees;
  }

  /** Two deletes in a row start two refreshes. The first list to arrive
      clears the loading mark while the second request is still out, and the
      list that arrives last is the one shown. */
  method OverlappingRefreshes(a: Value, b: Value, first: seq<Record>, second: seq<Record>)
    returns (loadingBetween: bool, ghost inFlightBetween: nat, employees: seq<Record>)
    ensures !loadingBetween && inFlightBetween == 1 && employees == second
  {
    var view := new EmployeeManager();
    var _ := view.DeleteEmployee(a, Ok("deleted"));
    var _ := view.DeleteEmployee(b, Ok("deleted"));
    view.FinishFetchAll(Ok(Array(first)));
    loadingBetween, inFlightBetween := view.loading, view.listRequestsInFlight;
    view.FinishFetchAll(Ok(Array(second)));
    employees := view.employees;
  }
}
