/**
 * The employees screen (admins only): a searchable roster with an
 * add/edit form, an active/inactive toggle that skips administrators, and
 * a delete that removes other employees at once but asks for a password
 * before removing an administrator.
 */
module EmployeesPage {
  import opened Common
  import opened EmployeeData
  import Auth

  /** `roleTranslations`: only the three known roles have a label. */
  function RoleLabel(role: string): (l: Option<string>)
    ensures l.Some? <==> role == "admin" || role == "technician" || role == "salesperson"
  {
    if role == "admin" then Some("Administrador")
    else if role == "technician" then Some("Técnico")
    else if role == "salesperson" then Some("Vendedor")
    else None
  }

  // ---------------------------------------------------------------------
  // Search
  // ---------------------------------------------------------------------

  /**
   * The term occurs, ignoring case, in the name, the email or the role's
   * label, or as typed in the phone. A role without a label matches nothing.
   */
  predicate EmployeeMatches(e: Employee, term: string) {
    || Includes(Lower(e.name), Lower(term))
    || Includes(Lower(e.email), Lower(term))
    || Includes(e.phone, term)
    || (RoleLabel(e.role).Some? && Includes(Lower(RoleLabel(e.role).value), Lower(term)))
  }

  /** `filteredEmployees`: the employees the search keeps, in roster order. */
  function FilteredEmployees(employees: seq<Employee>, term: string): (r: seq<Employee>)
    ensures forall i :: 0 <= i < |r| ==> r[i] in employees && EmployeeMatches(r[i], term)
    ensures forall i :: 0 <= i < |employees| && EmployeeMatches(employees[i], term) ==> employees[i] in r
  {
    Filter(employees, e => EmployeeMatches(e, term))
  }

  /** An empty search keeps the whole roster, in order. */
  lemma FilteredEmployeesEmptyTerm(employees: seq<Employee>)
    ensures FilteredEmployees(employees, "") == employees
  {
    forall i | 0 <= i < |employees| ensures EmployeeMatches(employees[i], "") {
      IncludesLowerEmpty(employees[i].name);
    }
    FilterKeepsAll(employees, e => EmployeeMatches(e, ""));
  }

  /** Searching for "técnico" finds the technicians through their role label, whatever their names. */
  lemma SearchByRoleLabel(e: Employee)
    requires e.role == "technician"
    ensures EmployeeMatches(e, "técnico")
  {
    var l := RoleLabel(e.role).value;
    assert Lower(l) == Lower("técnico");
    assert OccursAt(Lower(l), Lower("técnico"), 0);
  }

  // ---------------------------------------------------------------------
  // The form
  // ---------------------------------------------------------------------

  /**
   * The employee form. `status` is `None` when the form has no usable
   * status choice: while adding, and while editing an administrator.
   */
  datatype EmployeeForm = EmployeeForm(
    name: string,
    email: string,
    role: string,
    phone: string,
    avatar: string,
    status: Option<EmployeeStatus>)

  const DefaultAvatar := "https://images.pexels.com/photos/2379004/pexels-photo-2379004.jpeg"

  /**
   * The browser must let the `type="email"` field through; then name, role
   * and phone are required and the email must match the email pattern. The
   * photo is optional.
   */
  predicate FormValid(f: EmployeeForm) {
    && EmailInputAccepts(f.email)
    && f.name != "" && MatchesEmailPattern(f.email) && f.role != "" && f.phone != ""
  }

  /** Together the two email checks come down to the browser's: the email must be a valid address. */
  lemma FormValidIff(f: EmployeeForm)
    ensures FormValid(f) <==> f.name != "" && IsValidEmailAddress(f.email) && f.role != "" && f.phone != ""
  {
    EmailFieldRule(f.email);
  }

  /** `handleAddEmployee`'s record: active, with the default photo when none was given. */
  function NewEmployee(f: EmployeeForm, id: string, today: string): (e: Employee)
    ensures e.id == id && e.hireDate == today && e.status == Active
    ensures e.name == f.name && e.email == f.email && e.role == f.role && e.phone == f.phone
    ensures e.avatar == (if f.avatar == "" then DefaultAvatar else f.avatar)
  {
    Employee(id, f.name, f.email, f.role, today, f.phone, if f.avatar == "" then DefaultAvatar else f.avatar, Active)
  }

  /**
   * `handleEditEmployee`'s record: the form's fields over the selected
   * employee's, except that the hire date never changes and an empty photo
   * keeps the old one.
   */
  function EditedEmployee(selected: Employee, f: EmployeeForm): (e: Employee)
    ensures e.id == selected.id && e.hireDate == selected.hireDate
    ensures e.name == f.name && e.email == f.email && e.role == f.role && e.phone == f.phone
    ensures e.avatar == (if f.avatar == "" then selected.avatar else f.avatar)
    ensures e.status == (if f.status.Some? then f.status.value else selected.status)
  {
    Employee(selected.id, f.name, f.email, f.role, selected.hireDate, f.phone,
             if f.avatar == "" then selected.avatar else f.avatar,
             if f.status.Some? then f.status.value else selected.status)
  }

  /** What the form shows for an employee being edited. */
  function FormOf(e: Employee): EmployeeForm {
    EmployeeForm(e.name, e.email, e.role, e.phone, e.avatar, if IsAdmin(e) then None else Some(e.status))
  }

  /** Saving an employee's form unchanged gives the employee back. */
  lemma EditUnchangedIsIdentity(e: Employee)
    ensures EditedEmployee(e, FormOf(e)) == e
  {
  }

  // ---------------------------------------------------------------------
  // List operations
  // ---------------------------------------------------------------------

  /** `handleAddEmployee`: the new employee goes first and the others follow unchanged. */
  function AddEmployee(employees: seq<Employee>, f: EmployeeForm, id: string, today: string): (r: seq<Employee>)
    ensures |r| == |employees| + 1 && r[1..] == employees
    ensures r[0] == NewEmployee(f, id, today)
  {
    [NewEmployee(f, id, today)] + employees
  }

  /** `handleEditEmployee` over the roster: only entries with the selected id change. */
  function EditEmployee(employees: seq<Employee>, selected: Employee, f: EmployeeForm): (r: seq<Employee>)
    ensures Ids(r) == Ids(employees)
    ensures forall i :: 0 <= i < |employees| && employees[i].id != selected.id ==> r[i] == employees[i]
    ensures forall i :: 0 <= i < |employees| && employees[i].id == selected.id ==> r[i] == EditedEmployee(selected, f)
  {
    seq(|employees|, i requires 0 <= i < |employees| =>
      if employees[i].id == selected.id then EditedEmployee(selected, f) else employees[i])
  }

  /** `employees.find(emp => emp.id === id)`: the first employee with the id, if any. */
  function FindById(employees: seq<Employee>, id: string): (r: Option<Employee>)
    ensures r.None? <==> id !in Ids(employees)
    ensures r.Some? ==> r.value in employees && r.value.id == id
    ensures r.Some? ==> exists k :: 0 <= k < |employees| && employees[k] == r.value
                                    && forall j :: 0 <= j < k ==> employees[j].id != id
  {
    Find(employees, (e: Employee) => e.id == id)
  }

  function Flip(s: EmployeeStatus): EmployeeStatus {
    if s == Active then Inactive else Active
  }

  /** Whether the toggle leaves the roster alone: the first employee with that id is an administrator. */
  predicate ToggleBlocked(employees: seq<Employee>, id: string) {
    var found := FindById(employees, id);
    found.Some? && IsAdmin(found.value)
  }

  /**
   * `handleToggleStatus`: when the first employee with that id is an
   * administrator nothing changes; otherwise every entry with that id
   * switches between active and inactive and nothing else changes.
   */
  function ToggleStatus(employees: seq<Employee>, id: string): (r: seq<Employee>)
    ensures ToggleBlocked(employees, id) ==> r == employees
    ensures !ToggleBlocked(employees, id) ==>
              && |r| == |employees|
              && (forall i :: 0 <= i < |employees| && employees[i].id != id ==> r[i] == employees[i])
              && (forall i :: 0 <= i < |employees| && employees[i].id == id ==>
                    r[i] == employees[i].(status := Flip(employees[i].status)))
  {
    if ToggleBlocked(employees, id) then employees
    else seq(|employees|, i requires 0 <= i < |employees| =>
           if employees[i].id == id then employees[i].(status := Flip(employees[i].status)) else employees[i])
  }

  /** Two rosters with the same ids and roles at every position. */
  ghost predicate SameIdsAndRoles(a: seq<Employee>, b: seq<Employee>) {
    |a| == |b| && forall i :: 0 <= i < |a| ==> a[i].id == b[i].id && a[i].role == b[i].role
  }

  /** Whether the toggle is blocked depends only on ids and roles. */
  lemma {:induction false} BlockedBySameIdsAndRoles(a: seq<Employee>, b: seq<Employee>, id: string)
    requires SameIdsAndRoles(a, b)
    ensures ToggleBlocked(a, id) == ToggleBlocked(b, id)
  {
    if a != [] && a[0].id != id {
      BlockedBySameIdsAndRoles(a[1..], b[1..], id);
      assert FindById(a, id) == FindById(a[1..], id);
      assert FindById(b, id) == FindById(b[1..], id);
    }
  }

  /** Toggling the same employee twice restores the roster. */
  lemma ToggleTwiceRestores(employees: seq<Employee>, id: string)
    ensures ToggleStatus(ToggleStatus(employees, id), id) == employees
  {
    var once := ToggleStatus(employees, id);
    BlockedBySameIdsAndRoles(employees, once, id);
  }

  /** `handleDeleteEmployee` on the roster: every entry with that id goes, the others stay. */
  function RemoveEmployee(employees: seq<Employee>, id: string): (r: seq<Employee>)
    ensures forall i :: 0 <= i < |r| ==> r[i].id != id && r[i] in employees
    ensures forall i :: 0 <= i < |employees| && employees[i].id != id ==> employees[i] in r
  {
    Filter(employees, (e: Employee) => e.id != id)
  }

  /** Removing keeps the order of the remaining employees. */
  lemma RemoveEmployeeKeepsOrder(a: seq<Employee>, b: seq<Employee>, id: string)
    ensures RemoveEmployee(a + b, id) == RemoveEmployee(a, id) + RemoveEmployee(b, id)
  {
    FilterAppend(a, b, (e: Employee) => e.id != id);
  }

  /** The password that unlocks deleting an administrator. */
  const AdminDeletePassword := "123456"

  const WrongPasswordMessage := "Senha incorreta"

  /**
   * The delete button is shown for every employee who is not an
   * administrator, and for administrators only to a signed-in administrator.
   */
  predicate DeleteButtonShown(e: Employee, user: Option<Auth.User>) {
    (IsAdmin(e) && user.Some? && user.value.role == AdminRole) || !IsAdmin(e)
  }

  // ---------------------------------------------------------------------
  // The screen
  // ---------------------------------------------------------------------

  class EmployeesScreen {
    var employees: seq<Employee>
    /** The employee being edited, or the administrator awaiting deletion. */
    var selectedEmployee: Option<Employee>
    var searchTerm: string
    var isDeleteModalOpen: bool
    var deletePassword: string
    var deleteError: string

    constructor (initial: seq<Employee>)
      ensures employees == initial && selectedEmployee == None && searchTerm == ""
      ensures !isDeleteModalOpen && deletePassword == "" && deleteError == ""
    {
      employees := initial;
      selectedEmployee := None;
      searchTerm := "";
      isDeleteModalOpen := false;
      deletePassword := "";
      deleteError := "";
    }

    /** The rows the table shows: the employees matching the search term. */
    function Visible(): (r: seq<Employee>)
      reads this
      ensures forall i :: 0 <= i < |r| ==> r[i] in employees && EmployeeMatches(r[i], searchTerm)
      ensures forall i :: 0 <= i < |employees| && EmployeeMatches(employees[i], searchTerm) ==> employees[i] in r
    {
      FilteredEmployees(employees, searchTerm)
    }

    method Search(term: string)
      modifies this
      ensures searchTerm == term && employees == old(employees) && selectedEmployee == old(selectedEmployee)
      ensures isDeleteModalOpen == old(isDeleteModalOpen) && deletePassword == old(deletePassword)
      ensures deleteError == old(deleteError)
    {
      searchTerm := term;
    }

    /** `openAddModal`: no employee selected; the form starts with the given defaults. */
    method OpenAddModal(today: string) returns (form: EmployeeForm, hireDate: string)
      modifies this
      ensures selectedEmployee == None
      ensures form == EmployeeForm("", "", "salesperson", "", DefaultAvatar, None) && hireDate == today
      ensures employees == old(employees) && searchTerm == old(searchTerm)
      ensures isDeleteModalOpen == old(isDeleteModalOpen) && deletePassword == old(deletePassword)
      ensures deleteError == old(deleteError)
    {
      selectedEmployee := None;
      form := EmployeeForm("", "", "salesperson", "", DefaultAvatar, None);
      hireDate := today;
    }

    /** `openEditModal`: the form is loaded with the employee. */
    method OpenEditModal(e: Employee) returns (form: EmployeeForm)
      modifies this
      ensures selectedEmployee == Some(e) && form == FormOf(e)
      ensures employees == old(employees) && searchTerm == old(searchTerm)
      ensures isDeleteModalOpen == old(isDeleteModalOpen) && deletePassword == old(deletePassword)
      ensures deleteError == old(deleteError)
    {
      selectedEmployee := Some(e);
      form := FormOf(e);
    }

    /**
     * Submitting the form: an invalid form changes nothing; a valid one
     * edits the selected employee or adds a new one (hired `today`), then
     * the selection is cleared.
     */
    method Submit(f: EmployeeForm, id: string, today: string) returns (accepted: bool)
      modifies this
      ensures accepted == FormValid(f)
      ensures !accepted ==> employees == old(employees) && selectedEmployee == old(selectedEmployee)
      ensures accepted ==> selectedEmployee == None
      ensures accepted && old(selectedEmployee).Some? ==>
                employees == EditEmployee(old(employees), old(selectedEmployee).value, f)
      ensures accepted && old(selectedEmployee).None? ==> employees == AddEmployee(old(employees), f, id, today)
      ensures searchTerm == old(searchTerm) && isDeleteModalOpen == old(isDeleteModalOpen)
      ensures deletePassword == old(deletePassword) && deleteError == old(deleteError)
    {
      if !FormValid(f) {
        return false;
      }
      if selectedEmployee.Some? {
        employees := EditEmployee(employees, selectedEmployee.value, f);
      } else {
        employees := AddEmployee(employees, f, id, today);
      }
      selectedEmployee := None;
      return true;
    }

    /** The status toggle. */
    method Toggle(id: string)
      modifies this
      ensures employees == ToggleStatus(old(employees), id)
      ensures selectedEmployee == old(selectedEmployee) && searchTerm == old(searchTerm)
      ensures isDeleteModalOpen == old(isDeleteModalOpen) && deletePassword == old(deletePassword)
      ensures deleteError == old(deleteError)
    {
      employees := ToggleStatus(employees, id);
    }

    /** `handleDeleteEmployee`: remove, close the dialog, clear the selection and the password. */
    method DeleteEmployee(id: string)
      modifies this
      ensures employees == RemoveEmployee(old(employees), id)
      ensures !isDeleteModalOpen && selectedEmployee == None && deletePassword == ""
      ensures searchTerm == old(searchTerm) && deleteError == old(deleteError)
    {
      employees := RemoveEmployee(employees, id);
      isDeleteModalOpen := false;
      selectedEmployee := None;
      deletePassword := "";
    }

    /**
     * `openDeleteConfirmation`: an employee who is not an administrator is
     * deleted at once. An administrator is never deleted here: a signed-in
     * administrator gets the password dialog with no error showing, anyone
     * else gets nothing.
     */
    method OpenDeleteConfirmation(e: Employee, user: Option<Auth.User>)
      modifies this
      ensures !IsAdmin(e) ==>
                && employees == RemoveEmployee(old(employees), e.id)
                && !isDeleteModalOpen && selectedEmployee == None && deletePassword == ""
                && deleteError == old(deleteError)
      ensures IsAdmin(e) ==> employees == old(employees) && deletePassword == old(deletePassword)
      ensures IsAdmin(e) && DeleteButtonShown(e, user) ==>
                selectedEmployee == Some(e) && isDeleteModalOpen && deleteError == ""
      ensures !DeleteButtonShown(e, user) ==>
                && selectedEmployee == old(selectedEmployee) && isDeleteModalOpen == old(isDeleteModalOpen)
                && deleteError == old(deleteError)
      ensures searchTerm == old(searchTerm)
    {
      if IsAdmin(e) {
        if !(user.Some? && user.value.role == AdminRole) {
          return;
        }
        selectedEmployee := Some(e);
        isDeleteModalOpen := true;
        deleteError := "";
        return;
      }
      DeleteEmployee(e.id);
    }

    /** Typing in the password field of the dialog. */
    method TypeDeletePassword(p: string)
      modifies this
      ensures deletePassword == p
      ensures employees == old(employees) && selectedEmployee == old(selectedEmployee)
      ensures searchTerm == old(searchTerm) && isDeleteModalOpen == old(isDeleteModalOpen)
      ensures deleteError == old(deleteError)
    {
      deletePassword := p;
    }

    /** The dialog's cancel button: it only closes the dialog. */
    method CancelDelete()
      modifies this
      ensures !isDeleteModalOpen
      ensures employees == old(employees) && selectedEmployee == old(selectedEmployee)
      ensures searchTerm == old(searchTerm) && deletePassword == old(deletePassword)
      ensures deleteError == old(deleteError)
    {
      isDeleteModalOpen := false;
    }

    /**
     * `confirmAdminDelete`: a wrong password only shows the error; the
     * right one deletes the selected employee, if any. A successful delete
     * leaves an earlier error message in place.
     */
    method ConfirmAdminDelete()
      modifies this
      ensures old(deletePassword) != AdminDeletePassword ==>
                && deleteError == WrongPasswordMessage
                && employees == old(employees) && selectedEmployee == old(selectedEmployee)
                && isDeleteModalOpen == old(isDeleteModalOpen) && deletePassword == old(deletePassword)
      ensures old(deletePassword) == AdminDeletePassword && old(selectedEmployee).Some? ==>
                && employees == RemoveEmployee(old(employees), old(selectedEmployee).value.id)
                && !isDeleteModalOpen && selectedEmployee == None && deletePassword == ""
                && deleteError == old(deleteError)
      ensures old(deletePassword) == AdminDeletePassword && old(selectedEmployee).None? ==>
                && employees == old(employees) && selectedEmployee == None
                && isDeleteModalOpen == old(isDeleteModalOpen) && deletePassword == old(deletePassword)
                && deleteError == old(deleteError)
      ensures searchTerm == old(searchTerm)
    {
      if deletePassword != AdminDeletePassword {
        deleteError := WrongPasswordMessage;
        return;
      }
      if selectedEmployee.Some? {
        DeleteEmployee(selectedEmployee.value.id);
      }
    }
  }
}
