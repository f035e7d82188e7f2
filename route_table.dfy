/**
 * An insertion-ordered table from string keys to values, as a PHP array whose keys
 * are all strings: keys are unique, and iteration follows insertion order.
 */
module RouteTable {
  import opened Wrappers

  type Table<V> = seq<(string, V)>

  /** The keys of a table, in iteration order. */
  function Names<V>(t: Table<V>): seq<string> {
    seq(|t|, i requires 0 <= i < |t| => t[i].0)
  }

  /** The invariant of a PHP array: no key occurs twice. */
  ghost predicate Unique<V>(t: Table<V>) {
    forall i, j :: 0 <= i < j < |t| ==> t[i].0 != t[j].0
  }

  /** The position of `name` in the table, if it is a key. */
  function IndexOf<V>(t: Table<V>, name: string): (r: Option<nat>)
    ensures r.Some? ==> r.value < |t| && t[r.value].0 == name
    ensures r.Some? ==> forall j :: 0 <= j < r.value ==> t[j].0 != name
    ensures r.None? ==> forall j :: 0 <= j < |t| ==> t[j].0 != name
  {
    if t == [] then None
    else if t[0].0 == name then Some(0)
    else match IndexOf(t[1..], name)
      case Some(i) => Some(i + 1)
      case None => None
  }

  /** The first position holding `name` is where `IndexOf` finds it. */
  lemma IndexOfAt<V>(t: Table<V>, name: string, i: nat)
    requires i < |t| && t[i].0 == name
    requires forall j :: 0 <= j < i ==> t[j].0 != name
    ensures IndexOf(t, name) == Some(i)
  {
  }

  /** A name is a key exactly when `IndexOf` finds it. */
  lemma InNamesIff<V>(t: Table<V>, name: string)
    ensures name in Names(t) <==> IndexOf(t, name).Some?
  {
    if IndexOf(t, name).Some? {
      assert Names(t)[IndexOf(t, name).value] == name;
    }
  }

  /** `isset($t[$name]) ? $t[$name] : null`. */
  function Lookup<V>(t: Table<V>, name: string): Option<V> {
    match IndexOf(t, name)
    case Some(i) => Some(t[i].1)
    case None => None
  }

  /**
   * `$t[$name] = $v`: an existing key keeps its position and takes the new value;
   * a new key is appended at the end.
   */
  function Put<V>(t: Table<V>, name: string, v: V): (r: Table<V>)
    ensures Lookup(r, name) == Some(v)
    ensures forall other :: other != name ==> Lookup(r, other) == Lookup(t, other)
    ensures IndexOf(t, name).Some? ==> |r| == |t|
    ensures IndexOf(t, name).None? ==> |r| == |t| + 1 && r[|t|] == (name, v)
    ensures forall i :: 0 <= i < |t| && t[i].0 != name ==> r[i] == t[i]
  {
    match IndexOf(t, name)
    case Some(i) =>
      var r := t[i := (name, v)];
      IndexOfAt(r, name, i);
      forall other | other != name
        ensures Lookup(r, other) == Lookup(t, other)
      {
        LookupAgree(t, r, other, i);
      }
      r
    case None =>
      var r := t + [(name, v)];
      IndexOfAt(r, name, |t|);
      forall other | other != name
        ensures Lookup(r, other) == Lookup(t, other)
      {
        LookupAgree(t, r, other, |t|);
      }
      r
  }

  /** Two tables that differ only at position `k`, where neither holds `other`, agree on `other`. */
  lemma LookupAgree<V>(t: Table<V>, r: Table<V>, other: string, k: nat)
    requires k <= |t| && |r| == if k == |t| then |t| + 1 else |t|
    requires forall i :: 0 <= i < |t| && i != k ==> r[i] == t[i]
    requires k < |t| ==> t[k].0 != other
    requires k < |r| ==> r[k].0 != other
    ensures Lookup(r, other) == Lookup(t, other)
  {
    var a := IndexOf(t, other);
    if a.Some? {
      assert r[a.value] == t[a.value];
      forall j | 0 <= j < a.value ensures r[j].0 != other {
        if j != k { assert r[j] == t[j]; }
      }
      IndexOfAt(r, other, a.value);
    }
  }

  /** Under the key invariant, a name is found exactly when the pair is in the table. */
  lemma {:induction false} LookupIffMember<V>(t: Table<V>, name: string, v: V)
    requires Unique(t)
    ensures Lookup(t, name) == Some(v) <==> (name, v) in t
  {
    if (name, v) in t {
      var i :| 0 <= i < |t| && t[i] == (name, v);
      IndexOfAt(t, name, i);
    }
  }

  /** Storing keeps keys unique. */
  lemma PutUnique<V>(t: Table<V>, name: string, v: V)
    requires Unique(t)
    ensures Unique(Put(t, name, v))
  {
    var r := Put(t, name, v);
    var idx := IndexOf(t, name);
    forall i, j | 0 <= i < j < |r|
      ensures r[i].0 != r[j].0
    {
      if idx.None? && j == |t| {
        assert r[j].0 == name && t[i].0 != name;
        assert r[i] == t[i];
      } else if idx.Some? && (i == idx.value || j == idx.value) {
        var k := if i == idx.value then j else i;
        assert t[k].0 != name;
        assert r[k] == t[k];
      } else {
        assert r[i] == t[i] && r[j] == t[j];
      }
    }
  }

  /** Storing keeps the key order, appending a new key at the end. */
  lemma PutNames<V>(t: Table<V>, name: string, v: V)
    ensures Names(Put(t, name, v)) == if name in Names(t) then Names(t) else Names(t) + [name]
  {
    var r := Put(t, name, v);
    var idx := IndexOf(t, name);
    if idx.Some? {
      assert name in Names(t) by { assert Names(t)[idx.value] == name; }
      assert forall i :: 0 <= i < |t| ==> Names(r)[i] == Names(t)[i];
    } else {
      assert name !in Names(t) by {
        forall i | 0 <= i < |t| ensures Names(t)[i] != name { }
      }
      assert forall i :: 0 <= i < |t| ==> Names(r)[i] == Names(t)[i];
    }
  }

  /** Writing the same key twice leaves only the second value, at the same place. */
  lemma PutPut<V>(t: Table<V>, name: string, a: V, b: V)
    ensures Put(Put(t, name, a), name, b) == Put(t, name, b)
  {
    var idx := IndexOf(t, name);
    var once := Put(t, name, a);
    if idx.Some? {
      forall j | 0 <= j < idx.value ensures once[j].0 != name {
        assert once[j] == t[j];
      }
      IndexOfAt(once, name, idx.value);
    } else {
      forall j | 0 <= j < |t| ensures once[j].0 != name {
        assert once[j] == t[j];
      }
      IndexOfAt(once, name, |t|);
    }
  }

  /**
   * PHP's array union `$t + [$key => $v]`: the left operand wins, so the pair is
   * appended only when the key is new.
   */
  function UnionOne<V>(t: Table<V>, key: string, v: V): (r: Table<V>)
    ensures |t| <= |r| <= |t| + 1 && r[..|t|] == t
    ensures |r| == |t| + 1 <==> key !in Names(t)
    ensures |r| == |t| + 1 ==> r[|t|] == (key, v)
    ensures Lookup(r, key) == if key in Names(t) then Lookup(t, key) else Some(v)
  {
    InNamesIff(t, key);
    if IndexOf(t, key).Some? then t
    else
      var r := t + [(key, v)];
      IndexOfAt(r, key, |t|);
      r
  }
}
