/** JSON trees as the command line sees them, with `serde_json`'s lookups. */
module Json {
  import opened Wrappers

  /** `Integer` is what fits `i64` or `u64`; every other number is a `Fraction`. */
  datatype Number = Integer(i: int) | Fraction(r: real)

  datatype Field = Field(key: string, value: Value)

  datatype Value =
    | Null
    | Bool(b: bool)
    | Num(n: Number)
    | Str(s: string)
    | Arr(items: seq<Value>)
    | Obj(fields: seq<Field>)

  /** `get` with a string key: objects only. */
  function Get(v: Value, key: string): (r: Option<Value>)
    ensures r.Some? ==> r.value < v
  {
    match v
    case Obj(fields) => Find(fields, key)
    case _ => None
  }

  function Find(fields: seq<Field>, key: string): (r: Option<Value>)
    ensures r.Some? ==> exists i :: 0 <= i < |fields| && fields[i] == Field(key, r.value)
    ensures r.None? ==> forall i :: 0 <= i < |fields| ==> fields[i].key != key
  {
    if fields == [] then None
    else if fields[0].key == key then Some(fields[0].value)
    else
      var r := Find(fields[1..], key);
      assert forall i :: 0 <= i < |fields| - 1 ==> fields[1..][i] == fields[i + 1];
      r
  }

  lemma {:induction false} FindAppend(a: seq<Field>, b: seq<Field>, key: string)
    ensures Find(a + b, key) == if Find(a, key).Some? then Find(a, key) else Find(b, key)
  {
    if a == [] {
      assert a + b == b;
    } else {
      assert (a + b)[1..] == a[1..] + b;
      FindAppend(a[1..], b, key);
    }
  }

  lemma GetOfTwo(a: Field, b: Field)
    ensures forall key :: Get(Obj([a, b]), key) ==
                          if a.key == key then Some(a.value) else if b.key == key then Some(b.value) else None
  {
    forall key
      ensures Get(Obj([a, b]), key) ==
              if a.key == key then Some(a.value) else if b.key == key then Some(b.value) else None
    {
      assert [a, b][1..] == [b];
      assert Find([b], key) == if b.key == key then Some(b.value) else None;
    }
  }

  function GetStr(v: Value, key: string): Option<string> {
    match Get(v, key)
    case Some(Str(s)) => Some(s)
    case _ => None
  }

  function GetArr(v: Value, key: string): (r: Option<seq<Value>>)
    ensures r.Some? ==> Get(v, key) == Some(Arr(r.value))
  {
    match Get(v, key)
    case Some(Arr(items)) => Some(items)
    case _ => None
  }

  function GetBool(v: Value, key: string): Option<bool> {
    match Get(v, key)
    case Some(Bool(b)) => Some(b)
    case _ => None
  }
}
