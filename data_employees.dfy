/**
 * The employee record and the seed roster. The roster is also the user
 * directory that login searches by email.
 */
module EmployeeData {
  import opened Common

  datatype EmployeeStatus = Active | Inactive

  /**
   * `role` is a free string in the record type: the roster uses "admin",
   * "technician" and "salesperson", but nothing restricts it.
   */
  datatype Employee = Employee(
    id: string,
    name: string,
    email: string,
    role: string,
    hireDate: string,
    phone: string,
    avatar: string,
    status: EmployeeStatus)

  const AdminRole := "admin"

  const SeedEmployees: seq<Employee> := [
    Employee("1", "Guilherme Mendes", "admin@clickcelulares.com", "admin", "2022-01-10",
             "(31) 98765-4321", "https://images.pexels.com/photos/2379004/pexels-photo-2379004.jpeg", Active),
    Employee("2", "Marina Souza", "vendas@clickcelulares.com", "salesperson", "2022-03-15",
             "(31) 97654-3210", "https://images.pexels.com/photos/774909/pexels-photo-774909.jpeg", Active),
    Employee("3", "Ricardo Costa", "tecnico@clickcelulares.com", "technician", "2022-02-20",
             "(31) 96543-2109", "https://images.pexels.com/photos/220453/pexels-photo-220453.jpeg", Active),
    Employee("4", "Juliana Alves", "juliana.alves@clickcelulares.com", "salesperson", "2022-04-05",
             "(31) 95432-1098", "https://images.pexels.com/photos/773371/pexels-photo-773371.jpeg", Active),
    Employee("5", "Pedro Santos", "pedro.santos@clickcelulares.com", "technician", "2022-05-12",
             "(31) 94321-0987", "https://images.pexels.com/photos/91227/pexels-photo-91227.jpeg", Inactive)
  ]

  function Emails(roster: seq<Employee>): (r: seq<string>)
    ensures |r| == |roster|
    ensures forall i :: 0 <= i < |roster| ==> r[i] == roster[i].email
  {
    seq(|roster|, i requires 0 <= i < |roster| => roster[i].email)
  }

  function Ids(roster: seq<Employee>): (r: seq<string>)
    ensures |r| == |roster|
    ensures forall i :: 0 <= i < |roster| ==> r[i] == roster[i].id
  {
    seq(|roster|, i requires 0 <= i < |roster| => roster[i].id)
  }

  predicate IsAdmin(e: Employee) {
    e.role == AdminRole
  }

  /** No two seed employees share an email, so a lookup by email finds at most one. */
  lemma SeedEmailsDistinct()
    ensures Distinct(Emails(SeedEmployees))
  {
    var e := Emails(SeedEmployees);
    assert e[0][0] == 'a' && e[1][0] == 'v' && e[2][0] == 't' && e[3][0] == 'j' && e[4][0] == 'p';
  }

  /** Seed ids are pairwise distinct. */
  lemma SeedIdsDistinct()
    ensures Distinct(Ids(SeedEmployees))
  {
    var e := Ids(SeedEmployees);
    assert e[0][0] == '1' && e[1][0] == '2' && e[2][0] == '3' && e[3][0] == '4' && e[4][0] == '5';
  }

  /** Exactly one seed employee is an administrator: the one with id "1". */
  lemma SeedSingleAdmin()
    ensures Filter(SeedEmployees, IsAdmin) == [SeedEmployees[0]]
    ensures SeedEmployees[0].id == "1"
  {
    var s := SeedEmployees;
    assert s[1].role[0] == 's' && s[2].role[0] == 't' && s[3].role[0] == 's' && s[4].role[0] == 't';
    assert s[1..][1..][1..][1..][1..] == [];
  }

  /** The seed roster has an inactive employee (id "5") and every other one is active. */
  lemma SeedStatuses()
    ensures forall i :: 0 <= i < |SeedEmployees| ==> (SeedEmployees[i].status == Inactive <==> i == 4)
    ensures SeedEmployees[4].id == "5"
  {
  }
}
