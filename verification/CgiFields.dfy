/** Header fields, kept in the order of their names as std::map does. */
module CgiFields {
  import opened Sequences

  type Fields = seq<(string, string)>

  function Less(a: string, b: string): bool {
    if b == "" then false
    else if a == "" then true
    else if a[0] == b[0] then Less(a[1..], b[1..])
    else a[0] < b[0]
  }

  predicate Sorted(f: Fields) {
    forall i, j :: 0 <= i < j < |f| ==> Less(f[i].0, f[j].0)
  }

  /** fields[name] = value */
  function Put(f: Fields, name: string, value: string): (r: Fields)
    ensures |r| >= 1
  {
    if f == [] then [(name, value)]
    else if f[0].0 == name then [(name, value)] + f[1..]
    else if Less(name, f[0].0) then [(name, value)] + f
    else [f[0]] + Put(f[1..], name, value)
  }

  function Get(f: Fields, name: string): Option<string> {
    if f == [] then None else if f[0].0 == name then Some(f[0].1) else Get(f[1..], name)
  }

  lemma {:induction false} LessTotal(a: string, b: string)
    ensures Less(a, b) || Less(b, a) || a == b
    ensures !(Less(a, b) && Less(b, a)) && !Less(a, a)
  {
    if a != "" && b != "" {
      if a[0] == b[0] {
        LessTotal(a[1..], b[1..]);
        assert a[1..] == b[1..] ==> a == [a[0]] + a[1..] == b;
      }
      LessTotal(a[1..], a[1..]);
    } else if a != "" {
      LessTotal(a[1..], a[1..]);
    }
  }

  lemma {:induction false} LessTrans(a: string, b: string, c: string)
    requires Less(a, b) && Less(b, c)
    ensures Less(a, c)
  {
    if a != "" && a[0] == b[0] == c[0] {
      LessTrans(a[1..], b[1..], c[1..]);
    }
  }

  lemma {:induction false} PutKeys(f: Fields, name: string, value: string)
    ensures forall i :: 0 <= i < |Put(f, name, value)| ==>
              Put(f, name, value)[i] == (name, value) || Put(f, name, value)[i] in f
  {
    if f != [] && f[0].0 != name && !Less(name, f[0].0) {
      PutKeys(f[1..], name, value);
    }
  }

  lemma {:induction false} PutSorted(f: Fields, name: string, value: string)
    requires Sorted(f)
    ensures Sorted(Put(f, name, value))
  {
    var r := Put(f, name, value);
    if f == [] || f[0].0 == name {
    } else if Less(name, f[0].0) {
      forall i, j | 0 <= i < j < |r|
        ensures Less(r[i].0, r[j].0)
      {
        if i == 0 && j > 1 {
          LessTrans(name, f[0].0, f[j - 1].0);
        }
      }
    } else {
      var rest := Put(f[1..], name, value);
      PutSorted(f[1..], name, value);
      PutKeys(f[1..], name, value);
      LessTotal(name, f[0].0);
      forall j | 0 < j < |r|
        ensures Less(f[0].0, r[j].0)
      {
        assert r[j] == rest[j - 1];
        if rest[j - 1] in f[1..] {
          var k :| 0 <= k < |f[1..]| && f[1..][k] == rest[j - 1];
          assert f[k + 1] == rest[j - 1];
        }
      }
      forall i, j | 0 <= i < j < |r|
        ensures Less(r[i].0, r[j].0)
      {
        if i > 0 {
          assert r[i] == rest[i - 1] && r[j] == rest[j - 1];
        }
      }
    }
  }

  lemma {:induction false} GetPut(f: Fields, name: string, value: string, other: string)
    ensures Get(Put(f, name, value), other) == if other == name then Some(value) else Get(f, other)
  {
    if f == [] {
    } else if f[0].0 == name {
    } else if Less(name, f[0].0) {
      if other == name {
      } else {
        assert Put(f, name, value)[1..] == f;
      }
    } else {
      GetPut(f[1..], name, value, other);
    }
  }

  lemma {:induction false} GetAbsent(f: Fields, name: string)
    ensures Get(f, name).None? <==> forall i :: 0 <= i < |f| ==> f[i].0 != name
  {
    if f != [] {
      GetAbsent(f[1..], name);
      assert forall i :: 0 < i < |f| ==> f[i] == f[1..][i - 1];
    }
  }
}
