/** The in-memory employee store of the command-line employee manager
    (NodejsProjects/Experiment-10/src/routes/employees.js).

    One module-level array is changed in place by `push` and `splice`. Each operation is
    specified by a function from the old array (and the arguments) to the reply and the
    new array; the class holds the array and its methods are proved against those
    functions. JavaScript's falsy-argument checks (`!name`, `!id`) are modelled on
    strings, where only the empty string is falsy. */
module EmployeeStore {
  import opened Wrappers
  import opened Strings

  datatype Employee = Employee(name: string, id: string, dateAdded: string)

  /** The `{ success, message, employee? }` object the operations return. */
  datatype Reply = Reply(success: bool, message: string, employee: Option<Employee>)

  /** A reply together with the array as the operation leaves it. */
  datatype Outcome = Outcome(reply: Reply, employees: seq<Employee>)

  predicate HasId(emps: seq<Employee>, id: string) {
    exists i :: 0 <= i < |emps| && emps[i].id == id
  }

  predicate UniqueIds(emps: seq<Employee>) {
    forall i, j :: 0 <= i < j < |emps| ==> emps[i].id != emps[j].id
  }

  /** `employees.findIndex(emp => emp.id === id)`: the first match, or -1. */
  function IndexOf(emps: seq<Employee>, id: string): (k: int)
    ensures -1 <= k < |emps|
    ensures k == -1 <==> !HasId(emps, id)
    ensures k >= 0 ==> emps[k].id == id && forall i :: 0 <= i < k ==> emps[i].id != id
  {
    if emps == [] then -1
    else if emps[0].id == id then 0
    else
      var k := IndexOf(emps[1..], id);
      assert HasId(emps, id) ==> HasId(emps[1..], id) by {
        if HasId(emps, id) {
          var i :| 0 <= i < |emps| && emps[i].id == id;
          assert emps[1..][i - 1].id == id;
        }
      }
      if k == -1 then -1 else k + 1
  }

  /** `employees.find(emp => emp.id === id)`, with `|| null` as `None`. */
  function FindById(emps: seq<Employee>, id: string): (r: Option<Employee>)
    ensures r.None? <==> !HasId(emps, id)
    ensures r.Some? ==> r.value.id == id && r.value == emps[IndexOf(emps, id)]
  {
    var k := IndexOf(emps, id);
    if k == -1 then None else Some(emps[k])
  }

  const RequiredText := "Name and ID are required!"
  const IdRequiredText := "Employee ID is required!"

  /** `addEmployee(name, id)` on the array `emps`, with `today` for the date stamp. The
      duplicate check compares the argument as given; the stored record holds the
      trimmed name and id. */
  function Add(emps: seq<Employee>, name: string, id: string, today: string): Outcome {
    if name == [] || id == [] then
      Outcome(Reply(false, RequiredText, None), emps)
    else if FindById(emps, id).Some? then
      Outcome(Reply(false, "Employee with ID " + id + " already exists!", None), emps)
    else
      var e := Employee(Trim(name), Trim(id), today);
      Outcome(Reply(true, "Employee " + name + " (ID: " + id + ") added successfully!", Some(e)),
              emps + [e])
  }

  /** `removeEmployee(id)` on the array `emps`. */
  function RemoveById(emps: seq<Employee>, id: string): Outcome {
    if id == [] then
      Outcome(Reply(false, IdRequiredText, None), emps)
    else
      var k := IndexOf(emps, id);
      if k == -1 then
        Outcome(Reply(false, "Employee with ID " + id + " not found!", None), emps)
      else
        var removed := emps[k];
        Outcome(Reply(true, "Employee " + removed.name + " (ID: " + id + ") removed successfully!", Some(removed)),
                emps[..k] + emps[k + 1..])
  }

  // ---------------------------------------------------------------------------
  // What the operations promise

  /** An empty name or id is refused and the array is left alone. */
  lemma AddRejectsMissing(emps: seq<Employee>, name: string, id: string, today: string)
    requires name == "" || id == ""
    ensures !Add(emps, name, id, today).reply.success
    ensures Add(emps, name, id, today).reply.message == RequiredText
    ensures Add(emps, name, id, today).employees == emps
  {
  }

  /** An id that equals a stored id is refused and the array is left alone. */
  lemma AddRejectsDuplicate(emps: seq<Employee>, name: string, id: string, today: string)
    requires name != "" && id != "" && HasId(emps, id)
    ensures !Add(emps, name, id, today).reply.success
    ensures Add(emps, name, id, today).employees == emps
  {
  }

  /** Otherwise exactly one record is appended, holding the trimmed name and id, and the
      records before it are unchanged. */
  lemma AddAppends(emps: seq<Employee>, name: string, id: string, today: string)
    requires name != "" && id != "" && !HasId(emps, id)
    ensures var out := Add(emps, name, id, today);
      && out.reply.success
      && |out.employees| == |emps| + 1
      && out.employees[..|emps|] == emps
      && out.employees[|emps|] == Employee(Trim(name), Trim(id), today)
      && out.reply.employee == Some(out.employees[|emps|])
  {
    var out := Add(emps, name, id, today);
    assert out.employees[..|emps|] == emps;
  }

  /** Success exactly when both arguments are non-empty and the id is not stored yet. */
  lemma AddSucceedsIff(emps: seq<Employee>, name: string, id: string, today: string)
    ensures Add(emps, name, id, today).reply.success <==> name != "" && id != "" && !HasId(emps, id)
    ensures !Add(emps, name, id, today).reply.success ==> Add(emps, name, id, today).employees == emps
  {
  }

  /** Stored ids stay unique as long as the ids passed in are already trimmed. */
  lemma AddKeepsIdsUnique(emps: seq<Employee>, name: string, id: string, today: string)
    requires UniqueIds(emps) && Trim(id) == id
    ensures UniqueIds(Add(emps, name, id, today).employees)
  {
    var out := Add(emps, name, id, today);
    if out.reply.success {
      assert !HasId(emps, id);
      forall i, j | 0 <= i < j < |out.employees| ensures out.employees[i].id != out.employees[j].id {
        if j == |emps| {
          assert out.employees[i] == emps[i];
        }
      }
    }
  }

  lemma TrimPaddedSeven()
    ensures Trim(" 7") == "7"
  {
    var padded := " 7";
    assert padded != [] && IsJsWhitespace(padded[0]) && padded[1..] == "7";
    assert TrimStart(padded) == TrimStart("7");
    assert TrimStart("7") == "7" && TrimEnd("7") == "7";
  }

  /** Because the check uses the untrimmed id, an id with surrounding blanks gets past it
      and stores a second record with an id that is already present. */
  lemma UntrimmedIdDuplicates()
    ensures var emps := [Employee("Ann", "7", "2024-01-01")];
      && UniqueIds(emps)
      && Add(emps, "Bob", " 7", "2024-01-02").reply.success
      && !UniqueIds(Add(emps, "Bob", " 7", "2024-01-02").employees)
  {
    var emps := [Employee("Ann", "7", "2024-01-01")];
    TrimPaddedSeven();
    assert !HasId(emps, " 7") by {
      assert emps[0].id != " 7" by { assert |emps[0].id| != |" 7"|; }
    }
    assert FindById(emps, " 7") == None;
    var out := Add(emps, "Bob", " 7", "2024-01-02");
    assert out.employees == emps + [Employee(Trim("Bob"), "7", "2024-01-02")];
    assert out.employees[0].id == out.employees[1].id;
  }

  /** An empty id, or one that is not stored, is refused and changes nothing; otherwise
      only the first record with that id is removed and the others keep their order. */
  lemma RemoveFacts(emps: seq<Employee>, id: string)
    ensures var out := RemoveById(emps, id);
      && (out.reply.success <==> id != "" && HasId(emps, id))
      && (!out.reply.success ==> out.employees == emps && out.reply.employee.None?)
      && (out.reply.success ==>
            var k := IndexOf(emps, id);
            && |out.employees| == |emps| - 1
            && out.employees == emps[..k] + emps[k + 1..]
            && out.reply.employee == Some(emps[k])
            && forall i :: 0 <= i < k ==> emps[i].id != id)
  {
  }

  /** With unique ids, removal takes out the one record with that id and no other. */
  lemma RemoveLeavesNoMatch(emps: seq<Employee>, id: string)
    requires UniqueIds(emps) && id != "" && HasId(emps, id)
    ensures var out := RemoveById(emps, id);
      !HasId(out.employees, id) && UniqueIds(out.employees)
  {
    var k := IndexOf(emps, id);
    var rest := emps[..k] + emps[k + 1..];
    forall i | 0 <= i < |rest| ensures rest[i].id != id {
      if i < k { assert rest[i] == emps[i]; } else { assert rest[i] == emps[i + 1]; }
    }
    forall i, j | 0 <= i < j < |rest| ensures rest[i].id != rest[j].id {
      var i' := if i < k then i else i + 1;
      var j' := if j < k then j else j + 1;
      assert rest[i] == emps[i'] && rest[j] == emps[j'];
    }
  }

  // ---------------------------------------------------------------------------
  // The module-level array

  class Employees {
    var employees: seq<Employee>

    constructor ()
      ensures employees == []
    {
      employees := [];
    }

    method AddEmployee(name: string, id: string, today: string) returns (reply: Reply)
      modifies this
      ensures Outcome(reply, employees) == Add(old(employees), name, id, today)
    {
      if name == [] || id == [] {
        return Reply(false, RequiredText, None);
      }
      var existing := FindById(employees, id);
      if existing.Some? {
        return Reply(false, "Employee with ID " + id + " already exists!", None);
      }
      var e := Employee(Trim(name), Trim(id), today);
      employees := employees + [e];
      reply := Reply(true, "Employee " + name + " (ID: " + id + ") added successfully!", Some(e));
    }

    /** `getAllEmployees`: the array itself. */
    method GetAllEmployees() returns (r: seq<Employee>)
      ensures r == employees
    {
      r := employees;
    }

    method RemoveEmployee(id: string) returns (reply: Reply)
      modifies this
      ensures Outcome(reply, employees) == RemoveById(old(employees), id)
    {
      if id == [] {
        return Reply(false, IdRequiredText, None);
      }
      var k := IndexOf(employees, id);
      if k == -1 {
        return Reply(false, "Employee with ID " + id + " not found!", None);
      }
      var removed := employees[k];
      employees := employees[..k] + employees[k + 1..];
      reply := Reply(true, "Employee " + removed.name + " (ID: " + id + ") removed successfully!", Some(removed));
    }

    /** `findEmployeeById`: the first record with that id, or `None` (`null`). */
    method FindEmployeeById(id: string) returns (r: Option<Employee>)
      ensures r.None? <==> !HasId(employees, id)
      ensures r.Some? ==> r.value.id == id && r.value == employees[IndexOf(employees, id)]
    {
      r := FindById(employees, id);
    }

    /** `getEmployeeCount`: the length of the array. */
    method GetEmployeeCount() returns (n: nat)
      ensures n == |employees|
    {
      n := |employees|;
    }
  }
}
