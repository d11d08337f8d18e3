/** The `tasks` table and the four datastore operations the handlers call.
    The datastore's own source is not part of this model: each operation is
    given the meaning the handlers rely on, with lookups by `id` acting on the
    first record whose `id` is equal. */
module Store {
  import opened Search

  /** A task record. The fields `completedAt`, `createdAt` and `updatedAt`
      are the program's `completed_at`, `created_at` and `updated_at`.
      Timestamps are ISO-8601 strings; an empty `completedAt` means "not
      completed". */
  datatype Task = Task(
    id: string,
    title: string,
    description: string,
    completedAt: string,
    createdAt: string,
    updatedAt: string)

  /** The records of the table, in insertion order. */
  type Table = seq<Task>

  /** The fields an update writes over a record; the `id` is kept. */
  datatype Fields = Fields(
    title: string,
    description: string,
    completedAt: string,
    createdAt: string,
    updatedAt: string)

  function WithFields(id: string, f: Fields): Task {
    Task(id, f.title, f.description, f.completedAt, f.createdAt, f.updatedAt)
  }

  predicate HasId(t: Table, id: string) {
    exists i :: 0 <= i < |t| && t[i].id == id
  }

  /** No two records share an `id`. */
  predicate UniqueIds(t: Table) {
    forall i, j :: 0 <= i < |t| && 0 <= j < |t| && t[i].id == t[j].id ==> i == j
  }

  /** The ids of the table, in order. */
  function Ids(t: Table): seq<string> {
    seq(|t|, i requires 0 <= i < |t| => t[i].id)
  }

  /** Position of the first record with this `id`. */
  function IndexOf(t: Table, id: string): (r: Option<nat>)
    ensures r.Some? ==> r.value < |t| && t[r.value].id == id
    ensures r.Some? ==> forall j :: 0 <= j < r.value ==> t[j].id != id
    ensures r.None? <==> !HasId(t, id)
  {
    First(t, (task: Task) => task.id == id)
  }

  /** `selectFirstOrDefault(table, { id })`: the first record whose `id`
      equals `id`, or nothing. */
  function SelectFirst(t: Table, id: string): (r: Option<Task>)
    ensures r.Some? <==> HasId(t, id)
    ensures r.Some? ==> r.value.id == id && r.value in t
    ensures UniqueIds(t) ==> forall i :: 0 <= i < |t| && t[i].id == id ==> r == Some(t[i])
  {
    match IndexOf(t, id)
    case None => None
    case Some(i) => Some(t[i])
  }

  /** `insert(table, record)`: appends. */
  function Insert(t: Table, task: Task): (r: Table)
    ensures |r| == |t| + 1 && r[..|t|] == t && r[|t|] == task
  {
    t + [task]
  }

  /** `update(table, id, fields)`: overwrites the fields of the record with
      this `id`; a table without it is left as it is. */
  function Update(t: Table, id: string, f: Fields): (r: Table)
    ensures |r| == |t|
    ensures Ids(r) == Ids(t)
    ensures !HasId(t, id) ==> r == t
    ensures forall i :: 0 <= i < |t| && t[i].id != id ==> r[i] == t[i]
    ensures UniqueIds(t) ==> forall i :: 0 <= i < |t| && t[i].id == id ==> r[i] == WithFields(id, f)
  {
    match IndexOf(t, id)
    case None => t
    case Some(i) => t[i := WithFields(id, f)]
  }

  /** `delete(table, id)`: removes the record with this `id`; a table
      without it is left as it is. */
  function Delete(t: Table, id: string): (r: Table)
    ensures !HasId(t, id) ==> r == t
    ensures HasId(t, id) ==> |r| == |t| - 1
    ensures multiset(r) <= multiset(t)
    ensures UniqueIds(t) ==> !HasId(r, id)
    ensures UniqueIds(t) ==> forall task :: task in t && task.id != id ==> task in r
  {
    match IndexOf(t, id)
    case None => t
    case Some(i) =>
      var r := t[..i] + t[i + 1..];
      assert t == t[..i] + [t[i]] + t[i + 1..];
      assert multiset(t) == multiset(r) + multiset{t[i]};
      r
  }

  /** Tables with the same ids in the same order find an id at the same place. */
  lemma SameIdsSameIndex(a: Table, b: Table, id: string)
    requires Ids(a) == Ids(b)
    ensures IndexOf(a, id) == IndexOf(b, id)
  {
    assert |a| == |Ids(a)| == |Ids(b)| == |b|;
    assert forall i :: 0 <= i < |a| ==> a[i].id == Ids(a)[i] == Ids(b)[i] == b[i].id;
    assert HasId(a, id) <==> HasId(b, id);
  }

  /** Uniqueness of ids depends on the ids alone. */
  lemma SameIdsUnique(a: Table, b: Table)
    requires Ids(a) == Ids(b)
    requires UniqueIds(a)
    ensures UniqueIds(b)
  {
    assert |a| == |Ids(a)| == |Ids(b)| == |b|;
    assert forall i :: 0 <= i < |a| ==> a[i].id == Ids(a)[i] == Ids(b)[i] == b[i].id;
  }

  /** Appending a record with a fresh id keeps ids unique, and looking that id
      up again finds exactly the appended record. */
  lemma InsertFresh(t: Table, task: Task)
    requires UniqueIds(t)
    requires !HasId(t, task.id)
    ensures UniqueIds(Insert(t, task))
    ensures SelectFirst(Insert(t, task), task.id) == Some(task)
  {
    var r := Insert(t, task);
    assert forall i :: 0 <= i < |t| ==> r[i] == t[i];
    assert r[|t|] == task;
  }

  /** Removing a record keeps the remaining ids unique. */
  lemma DeleteKeepsUnique(t: Table, id: string)
    requires UniqueIds(t)
    ensures UniqueIds(Delete(t, id))
  {
    match IndexOf(t, id)
    case None =>
    case Some(k) =>
      var r := Delete(t, id);
      assert r == t[..k] + t[k + 1..];
      // Position i of the result comes from position i or i + 1 of the table.
      assert forall i :: 0 <= i < |r| ==> r[i] == t[if i < k then i else i + 1];
  }

  /** `b` gives every task id found in `a` the creation time it had there. */
  predicate KeepsCreation(a: Table, b: Table) {
    forall i, j :: 0 <= i < |a| && 0 <= j < |b| && a[i].id == b[j].id ==> b[j].createdAt == a[i].createdAt
  }

  /** A rewrite that keeps every record's id and creation time in place. */
  lemma InPlaceKeepsCreation(a: Table, b: Table)
    requires UniqueIds(a)
    requires |b| == |a|
    requires forall j :: 0 <= j < |a| ==> b[j].id == a[j].id && b[j].createdAt == a[j].createdAt
    ensures KeepsCreation(a, b)
  {
  }

  /** Appending a record with a fresh id. */
  lemma AppendKeepsCreation(a: Table, task: Task)
    requires UniqueIds(a)
    requires !HasId(a, task.id)
    ensures KeepsCreation(a, Insert(a, task))
  {
    var b := Insert(a, task);
    assert forall i :: 0 <= i < |a| ==> a[i].id != task.id;
    forall i, j | 0 <= i < |a| && 0 <= j < |b| && a[i].id == b[j].id
      ensures b[j].createdAt == a[i].createdAt
    {
      assert b[|a|] == task;
      assert j < |a|;
      assert b[j] == a[j];
    }
  }

  /** Removing a record. */
  lemma DeleteKeepsCreation(a: Table, id: string)
    requires UniqueIds(a)
    ensures KeepsCreation(a, Delete(a, id))
  {
    match IndexOf(a, id)
    case None =>
    case Some(k) =>
      var b := Delete(a, id);
      assert forall j :: 0 <= j < |b| ==> b[j] == a[if j < k then j else j + 1];
  }
}
