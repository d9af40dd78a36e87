/** The list computations the page performs on its `students` cell:
    removing by id (`filter`) and replacing by id (`map`). */
module StudentList {
  import opened Records

  /** No two entries of the list share an id. */
  ghost predicate UniqueIds(s: seq<Student>)
  {
    forall i, j :: 0 <= i < j < |s| ==> s[i].id != s[j].id
  }

  /** True when some entry of the list has the given id. */
  predicate HasId(s: seq<Student>, id: int)
  {
    exists x :: x in s && x.id == id
  }

  /** `students.filter(student => student.id !== id)`: the entries whose id
      differs from `id`, each kept as it was. */
  function WithoutId(s: seq<Student>, id: int): (r: seq<Student>)
    ensures |r| <= |s|
  {
    if s == [] then []
    else if s[0].id == id then WithoutId(s[1..], id)
    else [s[0]] + WithoutId(s[1..], id)
  }

  /** `students.map(student => student.id === id ? u : student)`: same length,
      every entry with id `id` becomes `u`, every other entry is unchanged. */
  function ReplacedById(s: seq<Student>, id: int, u: Student): (r: seq<Student>)
    ensures |r| == |s|
    ensures forall i :: 0 <= i < |s| ==> r[i] == (if s[i].id == id then u else s[i])
  {
    if s == [] then []
    else [if s[0].id == id then u else s[0]] + ReplacedById(s[1..], id, u)
  }

  /** Removing by id drops every entry whose id is `id` and keeps every other
      entry exactly as often as it occurred. */
  lemma {:induction false} WithoutIdCounts(s: seq<Student>, id: int)
    ensures forall x: Student :: multiset(WithoutId(s, id))[x] == if x.id == id then 0 else multiset(s)[x]
  {
    if s != [] {
      WithoutIdCounts(s[1..], id);
      assert s == [s[0]] + s[1..];
      assert multiset(s) == multiset([s[0]]) + multiset(s[1..]);
    }
  }

  /** Membership after removal: an entry survives exactly when it was there and
      its id differs from `id`. */
  lemma {:induction false} WithoutIdMembers(s: seq<Student>, id: int)
    ensures forall x :: x in WithoutId(s, id) <==> x in s && x.id != id
  {
    WithoutIdCounts(s, id);
    forall x | true ensures x in WithoutId(s, id) <==> x in s && x.id != id {
      assert x in WithoutId(s, id) <==> x in multiset(WithoutId(s, id));
      assert x in s <==> x in multiset(s);
    }
  }

  /** Filtering distributes over concatenation: the survivors of a list keep
      their relative order. */
  lemma {:induction false} WithoutIdConcat(a: seq<Student>, b: seq<Student>, id: int)
    ensures WithoutId(a + b, id) == WithoutId(a, id) + WithoutId(b, id)
  {
    if a != [] {
      assert (a + b)[0] == a[0] && (a + b)[1..] == a[1..] + b;
      WithoutIdConcat(a[1..], b, id);
      if a[0].id != id {
        assert [a[0]] + (WithoutId(a[1..], id) + WithoutId(b, id))
            == ([a[0]] + WithoutId(a[1..], id)) + WithoutId(b, id);
      }
    } else {
      assert a + b == b;
    }
  }

  /** Removing an id that no entry has leaves the list as it was. */
  lemma {:induction false} WithoutAbsentId(s: seq<Student>, id: int)
    requires !HasId(s, id)
    ensures WithoutId(s, id) == s
  {
    if s != [] {
      assert s[0] in s;
      assert !HasId(s[1..], id) by {
        forall x | x in s[1..] ensures x.id != id { assert x in s; }
      }
      WithoutAbsentId(s[1..], id);
    }
  }

  /** Removing the same id twice is the same as removing it once. */
  lemma {:induction false} WithoutIdIdempotent(s: seq<Student>, id: int)
    ensures WithoutId(WithoutId(s, id), id) == WithoutId(s, id)
  {
    WithoutIdMembers(s, id);
    WithoutAbsentId(WithoutId(s, id), id);
  }

  /** Removing by id keeps the ids unique. */
  lemma {:induction false} WithoutIdKeepsUnique(s: seq<Student>, id: int)
    requires UniqueIds(s)
    ensures UniqueIds(WithoutId(s, id))
  {
    if s != [] {
      var t := s[1..];
      assert UniqueIds(t) by {
        forall i, j | 0 <= i < j < |t| ensures t[i].id != t[j].id {
          assert t[i] == s[i + 1] && t[j] == s[j + 1];
        }
      }
      WithoutIdKeepsUnique(t, id);
      WithoutIdMembers(t, id);
      var rest := WithoutId(t, id);
      if s[0].id != id {
        forall x | x in rest ensures x.id != s[0].id {
          var k :| 0 <= k < |t| && t[k] == x;
          assert s[k + 1] == x;
        }
        var r := [s[0]] + rest;
        forall i, j | 0 <= i < j < |r| ensures r[i].id != r[j].id {
          if i == 0 {
            assert r[j] == rest[j - 1] && r[j] in rest;
          } else {
            assert r[i] == rest[i - 1] && r[j] == rest[j - 1];
          }
        }
      }
    }
  }

  /** Appending a record keeps the ids unique exactly when its id is new. */
  lemma AppendKeepsUnique(s: seq<Student>, x: Student)
    requires UniqueIds(s)
    ensures UniqueIds(s + [x]) <==> !HasId(s, x.id)
  {
    var r := s + [x];
    if HasId(s, x.id) {
      var y :| y in s && y.id == x.id;
      var k :| 0 <= k < |s| && s[k] == y;
      assert r[k].id == r[|s|].id;
    } else {
      forall i, j | 0 <= i < j < |r| ensures r[i].id != r[j].id {
        if j == |s| {
          assert r[i] == s[i] && s[i] in s;
        } else {
          assert r[i] == s[i] && r[j] == s[j];
        }
      }
    }
  }

  /** Replacing by id with a record that carries that same id keeps every
      position's id, and so keeps the ids unique. */
  lemma ReplacedByIdKeepsIds(s: seq<Student>, id: int, u: Student)
    requires u.id == id
    ensures forall i :: 0 <= i < |s| ==> ReplacedById(s, id, u)[i].id == s[i].id
    ensures UniqueIds(s) ==> UniqueIds(ReplacedById(s, id, u))
  {
  }

  /** Replacing an id that no entry has leaves the list as it was. */
  lemma {:induction false} ReplacedAbsentId(s: seq<Student>, id: int, u: Student)
    requires !HasId(s, id)
    ensures ReplacedById(s, id, u) == s
  {
    var r := ReplacedById(s, id, u);
    forall i | 0 <= i < |s| ensures r[i] == s[i] {
      assert s[i] in s;
    }
  }
}
