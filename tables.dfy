/** A database table with an auto-increment primary key, as the Django ORM presents it:
    rows by primary key, and the next key the database will hand out. `.first()` on an
    unordered queryset orders by primary key, so "the first row that matches" is the
    matching row with the smallest key. */
module Tables {
  import opened Wrappers

  datatype Table<V> = Table(rows: map<nat, V>, nextId: nat) {

    /** Keys start at 1 and every key in use is below the next one to be handed out. */
    ghost predicate WellFormed() {
      0 < nextId && forall k :: k in rows ==> 0 < k < nextId
    }

    /** `Model.objects.create(...)`: the row gets the next key. */
    function Insert(v: V): (r: Table<V>)
      requires WellFormed()
      ensures r.WellFormed()
      ensures nextId !in rows && nextId in r.rows && r.rows[nextId] == v
      ensures r.rows.Keys == rows.Keys + {nextId}
      ensures forall k :: k in rows ==> r.rows[k] == rows[k]
    {
      Table(rows[nextId := v], nextId + 1)
    }

    /** `row.save()` on an existing row. */
    function Put(k: nat, v: V): (r: Table<V>)
      requires k in rows
      ensures WellFormed() ==> r.WellFormed()
      ensures r.nextId == nextId && r.rows.Keys == rows.Keys && r.rows[k] == v
      ensures forall j :: j in rows && j != k ==> r.rows[j] == rows[j]
    {
      Table(rows[k := v], nextId)
    }

    /** `filter(<matches>).first()`: the smallest key whose row satisfies `matches`. */
    function First(matches: V -> bool): (r: Option<nat>)
      requires WellFormed()
      ensures r.Some? ==> r.value in rows && matches(rows[r.value])
      ensures r.Some? ==> forall k :: k in rows && matches(rows[k]) ==> r.value <= k
      ensures r.None? ==> forall k :: k in rows ==> !matches(rows[k])
    {
      FirstFrom(rows, matches, 1, nextId)
    }
  }

  /** The scan behind `First`: the smallest key in `from..bound` whose row matches. */
  function FirstFrom<V>(rows: map<nat, V>, matches: V -> bool, from: nat, bound: nat): (r: Option<nat>)
    ensures r.Some? ==> from <= r.value < bound && r.value in rows && matches(rows[r.value])
    ensures r.Some? ==> forall k :: from <= k < r.value && k in rows ==> !matches(rows[k])
    ensures r.None? ==> forall k :: from <= k < bound && k in rows ==> !matches(rows[k])
    decreases bound - from
  {
    if from >= bound then None
    else if from in rows && matches(rows[from]) then Some(from)
    else FirstFrom(rows, matches, from + 1, bound)
  }

  function Empty<V>(): (t: Table<V>)
    ensures t.WellFormed() && t.rows == map[]
  {
    Table(map[], 1)
  }
}
