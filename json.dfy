/** Parsed JSON as `json.load` returns it, and the few Python operations the
    core applies to such values: dict lookup, iteration, and `str()`.
    Decoding itself is not modelled: a file's content is given already
    parsed (or marked as malformed, see FileSystem). */
module Json {
  import opened Base
  import Text

  /** JSON numbers are integers here; floating point is not modelled. */
  datatype Json =
    | JNull
    | JBool(b: bool)
    | JNumber(n: int)
    | JString(s: string)
    | JArray(items: seq<Json>)
    | JObject(entries: seq<(string, Json)>)

  function Keys(entries: seq<(string, Json)>): (r: seq<string>)
    ensures |r| == |entries| && forall i :: 0 <= i < |r| ==> r[i] == entries[i].0
  {
    seq(|entries|, i requires 0 <= i < |entries| => entries[i].0)
  }

  predicate HasKey(entries: seq<(string, Json)>, k: string)
  {
    exists i :: 0 <= i < |entries| && entries[i].0 == k
  }

  lemma HasKeyCons(a: (string, Json), rest: seq<(string, Json)>)
    ensures forall x :: HasKey([a] + rest, x) <==> a.0 == x || HasKey(rest, x)
  {
    forall x ensures HasKey([a] + rest, x) <==> a.0 == x || HasKey(rest, x) {
      assert ([a] + rest)[0].0 == a.0;
      if HasKey(rest, x) {
        var i :| 0 <= i < |rest| && rest[i].0 == x;
        assert ([a] + rest)[i + 1].0 == x;
      }
      if HasKey([a] + rest, x) && a.0 != x {
        var i :| 0 <= i < |[a] + rest| && ([a] + rest)[i].0 == x;
        assert rest[i - 1].0 == x;
      }
    }
  }

  /** Adds one key/value pair to a dict given as its item list: a known key keeps
      its position and takes the new value, a new key goes last. */
  function DictInsert(acc: seq<(string, Json)>, k: string, v: Json): (r: seq<(string, Json)>)
    ensures forall x :: HasKey(r, x) <==> HasKey(acc, x) || x == k
    ensures (forall i, j :: 0 <= i < j < |acc| ==> acc[i].0 != acc[j].0) ==>
              (forall i, j :: 0 <= i < j < |r| ==> r[i].0 != r[j].0)
    ensures forall i :: 0 <= i < |r| ==> r[i] == (k, v) || r[i] in acc
  {
    if acc == [] then
      assert [(k, v)][0].0 == k;
      [(k, v)]
    else
      assert acc == [acc[0]] + acc[1..];
      HasKeyCons(acc[0], acc[1..]);
      if acc[0].0 == k then
        HasKeyCons((k, v), acc[1..]);
        [(k, v)] + acc[1..]
      else
        var rest := DictInsert(acc[1..], k, v);
        HasKeyCons(acc[0], rest);
        [acc[0]] + rest
  }

  /** The items of the Python dict that `json.load` builds from an object whose
      members are `entries`: one item per distinct key, at the position of its
      first occurrence, carrying the value of its last occurrence. */
  function DictItems(entries: seq<(string, Json)>): (r: seq<(string, Json)>)
    ensures forall i, j :: 0 <= i < j < |r| ==> r[i].0 != r[j].0
    ensures forall x :: HasKey(r, x) <==> HasKey(entries, x)
    ensures forall p :: p in r ==> p in entries
  {
    if entries == [] then []
    else
      var init := entries[..|entries| - 1];
      var last := entries[|entries| - 1];
      assert forall x :: HasKey(entries, x) <==> HasKey(init, x) || x == last.0 by {
        forall x ensures HasKey(entries, x) <==> HasKey(init, x) || x == last.0 {
          if HasKey(init, x) {
            var i :| 0 <= i < |init| && init[i].0 == x;
            assert entries[i].0 == x;
          }
          if HasKey(entries, x) && x != last.0 {
            var i :| 0 <= i < |entries| && entries[i].0 == x;
            assert init[i].0 == x;
          }
        }
      }
      DictInsert(DictItems(init), last.0, last.1)
  }

  function Find(items: seq<(string, Json)>, k: string): Option<Json>
  {
    if items == [] then None
    else if items[0].0 == k then Some(items[0].1)
    else Find(items[1..], k)
  }

  /** `d.get(k)` on a parsed object. */
  function Get(entries: seq<(string, Json)>, k: string): Option<Json>
  {
    Find(DictItems(entries), k)
  }

  /** The value of a repeated key is that of its last occurrence. */
  lemma {:induction false} GetLastOccurrence(entries: seq<(string, Json)>, k: string, v: Json)
    ensures Get(entries + [(k, v)], k) == Some(v)
  {
    var e := entries + [(k, v)];
    assert e[..|e| - 1] == entries;
    FindInserted(DictItems(entries), k, v);
  }

  lemma {:induction false} FindInserted(acc: seq<(string, Json)>, k: string, v: Json)
    ensures Find(DictInsert(acc, k, v), k) == Some(v)
  {
    if acc != [] && acc[0].0 != k {
      FindInserted(acc[1..], k, v);
    }
  }

  /** Python's `repr` of a parsed value, as `str()` shows list and dict members.
      Strings are quoted with `'` and, unlike Python, no character is escaped. */
  function Repr(j: Json): string
    decreases j, 4
  {
    match j
    case JString(s) => "'" + s + "'"
    case _ => Str(j)
  }

  /** Python's `str()` of a parsed value. */
  function Str(j: Json): string
    decreases j, 3
  {
    match j
    case JNull => "None"
    case JBool(b) => if b then "True" else "False"
    case JNumber(n) => Text.IntToString(n)
    case JString(s) => s
    case JArray(items) => "[" + ReprItems(j, items) + "]"
    case JObject(entries) =>
      var items := DictItems(entries);
      assert forall x :: x in items ==> x.1 < j by {
        forall x | x in items ensures x.1 < j {
          assert x in entries;
        }
      }
      "{" + ReprMembers(j, items) + "}"
  }

  function ReprItems(ghost parent: Json, items: seq<Json>): string
    requires forall x :: x in items ==> x < parent
    decreases parent, 2, |items|
  {
    if items == [] then ""
    else
      assert items[0] in items;
      assert forall x :: x in items[1..] ==> x in items;
      if |items| == 1 then Repr(items[0])
      else Repr(items[0]) + ", " + ReprItems(parent, items[1..])
  }

  function ReprMembers(ghost parent: Json, items: seq<(string, Json)>): string
    requires forall x :: x in items ==> x.1 < parent
    decreases parent, 2, |items|
  {
    if items == [] then ""
    else
      assert items[0] in items;
      assert forall x :: x in items[1..] ==> x in items;
      var head := "'" + items[0].0 + "': " + Repr(items[0].1);
      if |items| == 1 then head else head + ", " + ReprMembers(parent, items[1..])
  }

  /** `for x in j`: a list yields its items, a string its characters and a dict
      its keys; any other value raises TypeError, which the core never catches. */
  function Iterate(j: Json): (r: Result<seq<Json>>)
    ensures r.Ok? <==> j.JArray? || j.JString? || j.JObject?
    ensures j.JArray? ==> r == Ok(j.items)
  {
    match j
    case JArray(items) => Ok(items)
    case JString(s) => Ok(seq(|s|, i requires 0 <= i < |s| => JString([s[i]])))
    case JObject(entries) =>
      var keys := Keys(DictItems(entries));
      Ok(seq(|keys|, i requires 0 <= i < |keys| => JString(keys[i])))
    case _ => Err(Uncaught(None))
  }
}
