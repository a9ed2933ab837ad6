/** One database table as GORM and PostgreSQL treat it: rows in insertion
    order and the next value of the id sequence. `Create` takes the next
    sequence value when the record's primary key is zero and keeps the given
    key otherwise; the sequence advances even when the insert is then
    rejected. `Save` updates every column of the rows with the record's key,
    inserts the record when there are none, and creates it when its key is
    zero. A `clash` relation stands for a unique index other than the key. */
module Tables {
  import opened Wrappers
  import opened Models

  datatype Table<T> = Table(rows: seq<T>, next: nat)

  predicate HasId<T>(rows: seq<T>, id: T -> Id, k: Id)
  {
    exists i :: 0 <= i < |rows| && id(rows[i]) == k
  }

  predicate DistinctIds<T>(rows: seq<T>, id: T -> Id)
  {
    forall i, j :: 0 <= i < j < |rows| ==> id(rows[i]) != id(rows[j])
  }

  /** Some row other than those with key `k` clashes with `row`. */
  predicate ClashesWith<T>(rows: seq<T>, row: T, k: Id, id: T -> Id, clash: (T, T) -> bool)
  {
    exists i :: 0 <= i < |rows| && id(rows[i]) != k && clash(rows[i], row)
  }

  /** No two rows violate the unique index `clash`. */
  predicate NoClash<T>(rows: seq<T>, clash: (T, T) -> bool)
  {
    forall i, j :: 0 <= i < |rows| && 0 <= j < |rows| && i != j ==> !clash(rows[i], rows[j])
  }

  /** The table invariant: non-zero distinct keys and no clashing rows. */
  predicate WellKeyed<T>(rows: seq<T>, id: T -> Id, clash: (T, T) -> bool)
  {
    (forall i :: 0 <= i < |rows| ==> id(rows[i]) != 0) && DistinctIds(rows, id) && NoClash(rows, clash)
  }

  /** Every key lies below the sequence's next value, so an insert with a
      zero key cannot collide. */
  predicate SequenceAhead<T>(t: Table<T>, id: T -> Id)
  {
    forall i :: 0 <= i < |t.rows| ==> id(t.rows[i]) < t.next
  }

  /** `setId` sets the key and nothing else that `clash` looks at. */
  ghost predicate KeySetter<T(!new)>(id: T -> Id, setId: (T, Id) -> T)
  {
    forall r: T, k: Id :: id(setId(r, k)) == k
  }

  /** `db.Create(&row)`: the stored row, or the rejection. */
  function Insert<T(!new)>(t: Table<T>, row: T, id: T -> Id, setId: (T, Id) -> T,
                           clash: (T, T) -> bool): (p: (Table<T>, Result<T, DbError>))
    requires KeySetter(id, setId)
    ensures p.0.next == if id(row) == 0 then t.next + 1 else t.next
    ensures p.1.Ok? ==> p.0.rows == t.rows + [p.1.value]
    ensures p.1.Ok? ==> p.1.value == setId(row, if id(row) == 0 then t.next else id(row))
    ensures p.1.Ok? <==> !HasId(t.rows, id, if id(row) == 0 then t.next else id(row))
                         && !ClashesWith(t.rows, setId(row, if id(row) == 0 then t.next else id(row)),
                                         if id(row) == 0 then t.next else id(row), id, clash)
    ensures p.1.Err? ==> p.0.rows == t.rows && p.1.error == DuplicateKey
  {
    var k := if id(row) == 0 then t.next else id(row);
    var next := if id(row) == 0 then t.next + 1 else t.next;
    var stored := setId(row, k);
    if HasId(t.rows, id, k) || ClashesWith(t.rows, stored, k, id, clash) then (Table(t.rows, next), Err(DuplicateKey))
    else (Table(t.rows + [stored], next), Ok(stored))
  }

  /** The rows with `row`'s key replaced by `row`. */
  function Replace<T>(rows: seq<T>, row: T, id: T -> Id): (r: seq<T>)
    ensures |r| == |rows|
    ensures forall i :: 0 <= i < |rows| ==> r[i] == if id(rows[i]) == id(row) then row else rows[i]
  {
    seq(|rows|, i requires 0 <= i < |rows| => if id(rows[i]) == id(row) then row else rows[i])
  }

  /** `db.Save(&row)`. */
  function Save<T(!new)>(t: Table<T>, row: T, id: T -> Id, setId: (T, Id) -> T,
                         clash: (T, T) -> bool): (p: (Table<T>, Result<T, DbError>))
    requires KeySetter(id, setId)
    ensures id(row) == 0 ==> p == Insert(t, row, id, setId, clash)
    ensures id(row) != 0 && p.1.Ok? ==> p.1.value == row && p.0.next == t.next
    ensures id(row) != 0 && p.1.Ok? ==>
      p.0.rows == if HasId(t.rows, id, id(row)) then Replace(t.rows, row, id) else t.rows + [row]
    ensures id(row) != 0 ==> (p.1.Ok? <==> !ClashesWith(t.rows, row, id(row), id, clash))
    ensures p.1.Err? ==> p.0.rows == t.rows && p.1.error == DuplicateKey
  {
    if id(row) == 0 then Insert(t, row, id, setId, clash)
    else if ClashesWith(t.rows, row, id(row), id, clash) then (t, Err(DuplicateKey))
    else if HasId(t.rows, id, id(row)) then (Table(Replace(t.rows, row, id), t.next), Ok(row))
    else (Table(t.rows + [row], t.next), Ok(row))
  }

  lemma InsertKeepsKeys<T(!new)>(t: Table<T>, row: T, id: T -> Id, setId: (T, Id) -> T,
                                 clash: (T, T) -> bool)
    requires KeySetter(id, setId)
    requires forall a: T, b: T :: clash(a, b) == clash(b, a)
    ensures WellKeyed(t.rows, id, clash) && t.next != 0 ==> WellKeyed(Insert(t, row, id, setId, clash).0.rows, id, clash)
    ensures Insert(t, row, id, setId, clash).0.next >= t.next
    ensures SequenceAhead(t, id) && id(row) == 0 ==> SequenceAhead(Insert(t, row, id, setId, clash).0, id)
  {
    var p := Insert(t, row, id, setId, clash);
    if p.1.Ok? && WellKeyed(t.rows, id, clash) && t.next != 0 {
      var rows := p.0.rows;
      var n := |t.rows|;
      var k := id(p.1.value);
      assert rows == t.rows + [p.1.value];
      assert forall i :: 0 <= i < n ==> id(t.rows[i]) != k;
      forall i, j | 0 <= i < |rows| && 0 <= j < |rows| && i != j ensures !clash(rows[i], rows[j]) {
        if i == n {
          assert id(rows[j]) != k;
        } else if j == n {
          assert id(rows[i]) != k;
        }
      }
    }
  }

  lemma SaveKeepsKeys<T(!new)>(t: Table<T>, row: T, id: T -> Id, setId: (T, Id) -> T,
                               clash: (T, T) -> bool)
    requires KeySetter(id, setId)
    requires forall a: T, b: T :: clash(a, b) == clash(b, a)
    ensures WellKeyed(t.rows, id, clash) && t.next != 0 ==> WellKeyed(Save(t, row, id, setId, clash).0.rows, id, clash)
    ensures Save(t, row, id, setId, clash).0.next >= t.next
  {
    var p := Save(t, row, id, setId, clash);
    if id(row) == 0 {
      InsertKeepsKeys(t, row, id, setId, clash);
    } else if p.1.Ok? && WellKeyed(t.rows, id, clash) {
      var rows := p.0.rows;
      var k := id(row);
      if HasId(t.rows, id, k) {
        assert forall i :: 0 <= i < |rows| ==> id(rows[i]) == id(t.rows[i]);
        forall i, j | 0 <= i < |rows| && 0 <= j < |rows| && i != j ensures !clash(rows[i], rows[j]) {
          if id(t.rows[i]) == k {
            assert id(t.rows[j]) != k;
          } else if id(t.rows[j]) == k {
            assert id(t.rows[i]) != k;
          }
        }
      } else {
        var n := |t.rows|;
        forall i, j | 0 <= i < |rows| && 0 <= j < |rows| && i != j ensures !clash(rows[i], rows[j]) {
          if i == n {
            assert id(rows[j]) != k;
          } else if j == n {
            assert id(rows[i]) != k;
          }
        }
      }
    }
  }

  /** `First` on a filtered query: the matching row with the smallest key
      (`ORDER BY id LIMIT 1`), or `gorm.ErrRecordNotFound`. */
  function First<T>(rows: seq<T>, p: T -> bool, id: T -> Id): (r: Result<T, DbError>)
    ensures r.Ok? ==> r.value in rows && p(r.value)
    ensures r.Ok? ==> forall x :: x in rows && p(x) ==> id(r.value) <= id(x)
    ensures r.Err? <==> forall x :: x in rows ==> !p(x)
    ensures r.Err? ==> r.error == RecordNotFound
  {
    if rows == [] then Err(RecordNotFound)
    else
      var rest := First(rows[1..], p, id);
      assert rows == [rows[0]] + rows[1..];
      if !p(rows[0]) then rest
      else if rest.Ok? && id(rest.value) < id(rows[0]) then rest
      else Ok(rows[0])
  }

  /** With distinct keys, a lookup that only matches key `k` finds the one
      row holding it. */
  lemma FirstByKey<T>(rows: seq<T>, p: T -> bool, id: T -> Id, k: Id, i: nat)
    requires forall x :: p(x) ==> id(x) == k
    requires DistinctIds(rows, id) && i < |rows| && id(rows[i]) == k && p(rows[i])
    ensures First(rows, p, id) == Ok(rows[i])
  {
    assert rows[i] in rows;
    var r := First(rows, p, id);
    var j :| 0 <= j < |rows| && rows[j] == r.value;
    assert id(rows[j]) == k;
    assert i == j;
  }
}
