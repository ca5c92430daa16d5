/** Classification of tool-parameter schemas by mutual recursion through `$ref`, `anyOf`
    and `items`. References follow the subset of section 6 of RFC 6901 that the code
    implements: `#/`-paths through object members, without `~` unescaping. */
module SchemaShape {
  import opened Wrappers
  import opened Json
  import opened Ranks

  // ---------------------------------------------------------------- edges

  function SplitPath(s: string): (r: seq<string>)
    ensures |r| > 0
  {
    if s == "" then [""]
    else
      var rest := SplitPath(s[1..]);
      if s[0] == '/' then [""] + rest else [[s[0]] + rest[0]] + rest[1..]
  }

  function Lookup(v: Value, path: seq<string>): Option<Value> {
    if path == [] then Some(v)
    else match Get(v, path[0])
         case None => None
         case Some(next) => Lookup(next, path[1..])
  }

  /** Where the reference of a node leads; a foreign or dangling reference leads nowhere. */
  function RefTarget(root: Value, v: Value): Option<Value> {
    match GetStr(v, "$ref")
    case None => None
    case Some(r) => if "#/" <= r then Lookup(root, SplitPath(r[2..])) else None
  }

  // ---------------------------------------------------------------- reference paths

  function Join(keys: seq<string>): string {
    if keys == [] then "" else if |keys| == 1 then keys[0] else keys[0] + "/" + Join(keys[1..])
  }

  predicate Plain(keys: seq<string>) {
    forall k :: k in keys ==> '/' !in k
  }

  lemma JoinCons(key: string, rest: seq<string>)
    requires rest != []
    ensures Join([key] + rest) == key + "/" + Join(rest)
  {
    assert ([key] + rest)[1..] == rest;
  }

  lemma JoinGrowsFirst(c: char, rest: seq<string>)
    requires rest != []
    ensures Join([[c] + rest[0]] + rest[1..]) == [c] + Join(rest)
  {
    if |rest| > 1 {
      JoinCons([c] + rest[0], rest[1..]);
    }
  }

  lemma {:induction false} SplitPathJoins(s: string)
    ensures SplitPath(s) != [] && Plain(SplitPath(s)) && Join(SplitPath(s)) == s
  {
    if s != "" {
      var rest := SplitPath(s[1..]);
      SplitPathJoins(s[1..]);
      assert s == [s[0]] + s[1..];
      if s[0] == '/' {
        JoinCons("", rest);
      } else {
        JoinGrowsFirst(s[0], rest);
        assert rest[0] in rest && forall k :: k in rest[1..] ==> k in rest;
      }
    }
  }

  lemma {:induction false} SplitOneKey(key: string)
    requires '/' !in key
    ensures SplitPath(key) == [key]
  {
    if key != "" {
      SplitOneKey(key[1..]);
      assert key == [key[0]] + key[1..];
    }
  }

  lemma {:induction false} SplitAfterKey(key: string, rest: string)
    requires '/' !in key
    ensures SplitPath(key + "/" + rest) == [key] + SplitPath(rest)
  {
    var s := key + "/" + rest;
    if key == "" {
      assert s[0] == '/' && s[1..] == rest;
    } else {
      assert s[0] == key[0] && s[1..] == key[1..] + "/" + rest;
      SplitAfterKey(key[1..], rest);
      assert [key[0]] + key[1..] == key;
    }
  }

  lemma {:induction false} JoinedKeysSplit(keys: seq<string>)
    requires keys != [] && Plain(keys)
    ensures SplitPath(Join(keys)) == keys
    decreases |keys|
  {
    assert keys[0] in keys;
    if |keys| == 1 {
      SplitOneKey(keys[0]);
    } else {
      assert Plain(keys[1..]) by { assert forall k :: k in keys[1..] ==> k in keys; }
      SplitAfterKey(keys[0], Join(keys[1..]));
      JoinedKeysSplit(keys[1..]);
    }
  }

  /** The path's keys are the only non-empty list without slashes that joins to it. */
  lemma SplitPathIsTheOnlySplit(s: string, keys: seq<string>)
    ensures keys == SplitPath(s) <==> keys != [] && Plain(keys) && Join(keys) == s
  {
    SplitPathJoins(s);
    if keys != [] && Plain(keys) && Join(keys) == s {
      JoinedKeysSplit(keys);
    }
  }

  /** `chain` leads from `from` through the members named by `keys`, each of an object. */
  ghost predicate Descends(from: Value, keys: seq<string>, chain: seq<Value>) {
    && |chain| == |keys| + 1 && chain[0] == from
    && forall i :: 0 <= i < |keys| ==> chain[i].Obj? && IsMember(chain[i].fields, keys[i], chain[i + 1])
  }

  /** The first member of that name. */
  ghost predicate IsMember(fields: seq<Field>, key: string, v: Value) {
    exists i :: 0 <= i < |fields| && fields[i] == Field(key, v) && forall j :: 0 <= j < i ==> fields[j].key != key
  }

  lemma MemberOfTail(fields: seq<Field>, key: string, v: Value)
    requires fields != [] && fields[0].key != key && IsMember(fields[1..], key, v)
    ensures IsMember(fields, key, v)
  {
    var rest := fields[1..];
    var i :| 0 <= i < |rest| && rest[i] == Field(key, v) && forall j :: 0 <= j < i ==> rest[j].key != key;
    assert fields[i + 1] == Field(key, v);
    forall j | 0 <= j < i + 1 ensures fields[j].key != key {
      assert j > 0 ==> fields[j] == rest[j - 1];
    }
  }

  lemma MemberInTail(fields: seq<Field>, key: string, v: Value)
    requires fields != [] && fields[0].key != key && IsMember(fields, key, v)
    ensures IsMember(fields[1..], key, v)
  {
    var rest := fields[1..];
    var i :| 0 <= i < |fields| && fields[i] == Field(key, v) && forall j :: 0 <= j < i ==> fields[j].key != key;
    assert rest[i - 1] == Field(key, v);
    forall j | 0 <= j < i - 1 ensures rest[j].key != key {
      assert rest[j] == fields[j + 1];
    }
  }

  lemma {:induction false} FindIsMember(fields: seq<Field>, key: string, v: Value)
    ensures Find(fields, key) == Some(v) <==> IsMember(fields, key, v)
  {
    if fields != [] {
      if fields[0].key == key {
        assert fields[0] == Field(key, fields[0].value);
      } else {
        FindIsMember(fields[1..], key, v);
        if IsMember(fields[1..], key, v) {
          MemberOfTail(fields, key, v);
        }
        if IsMember(fields, key, v) {
          MemberInTail(fields, key, v);
        }
      }
    }
  }

  lemma {:induction false} LookupDescends(from: Value, keys: seq<string>, t: Value)
    ensures Lookup(from, keys) == Some(t) <==>
              exists chain: seq<Value> :: Descends(from, keys, chain) && chain[|keys|] == t
    decreases |keys|
  {
    if keys == [] {
      assert Descends(from, [], [from]);
      assert forall chain: seq<Value> :: Descends(from, [], chain) ==> chain == [chain[0]];
    } else {
      match Get(from, keys[0])
      case None =>
        forall chain: seq<Value> ensures !Descends(from, keys, chain) {
          if Descends(from, keys, chain) {
            FindIsMember(from.fields, keys[0], chain[1]);
          }
        }
      case Some(next) =>
        FindIsMember(from.fields, keys[0], next);
        LookupDescends(next, keys[1..], t);
        if chain: seq<Value> :| Descends(next, keys[1..], chain) && chain[|keys| - 1] == t {
          var all := [from] + chain;
          forall i | 0 <= i < |keys| ensures all[i].Obj? && IsMember(all[i].fields, keys[i], all[i + 1]) {
            assert i > 0 ==> keys[1..][i - 1] == keys[i];
          }
          assert Descends(from, keys, all) && all[|keys|] == t;
        }
        if chain: seq<Value> :| Descends(from, keys, chain) && chain[|keys|] == t {
          FindIsMember(from.fields, keys[0], chain[1]);
          forall i | 0 <= i < |keys| - 1
            ensures chain[1..][i].Obj? && IsMember(chain[1..][i].fields, keys[1..][i], chain[1..][i + 1])
          {
            assert chain[i + 1].Obj? && IsMember(chain[i + 1].fields, keys[i + 1], chain[i + 2]);
          }
          assert Descends(next, keys[1..], chain[1..]) && chain[1..][|keys| - 1] == t;
        }
    }
  }

  /** A reference leads to the member its path names, object by object from the root; and
      nowhere exactly when it does not begin with `#/`, or a member on the way is missing or
      not of an object. */
  lemma ReferenceLeads(root: Value, v: Value, r: string, keys: seq<string>, t: Value)
    requires GetStr(v, "$ref") == Some(r) && keys != [] && Plain(keys)
    ensures r == "#/" + Join(keys) ==>
              (RefTarget(root, v) == Some(t) <==>
                   exists chain: seq<Value> :: Descends(root, keys, chain) && chain[|keys|] == t)
    ensures !("#/" <= r) ==> RefTarget(root, v) == None
  {
    if r == "#/" + Join(keys) {
      assert r[2..] == Join(keys);
      JoinedKeysSplit(keys);
      LookupDescends(root, keys, t);
    }
  }

  /** Some member on the way is missing, or not of an object. */
  ghost predicate LeadsNowhere(from: Value, keys: seq<string>) {
    forall chain: seq<Value> :: !Descends(from, keys, chain)
  }

  lemma LookupFindsNothing(from: Value, keys: seq<string>)
    ensures Lookup(from, keys).None? <==> LeadsNowhere(from, keys)
  {
    match Lookup(from, keys)
    case Some(t) =>
      LookupDescends(from, keys, t);
      var chain: seq<Value> :| Descends(from, keys, chain) && chain[|keys|] == t;
    case None =>
      forall chain: seq<Value> ensures !Descends(from, keys, chain) {
        if Descends(from, keys, chain) {
          LookupDescends(from, keys, chain[|keys|]);
        }
      }
  }

  lemma ReferenceLeadsNowhere(root: Value, v: Value, r: string)
    requires GetStr(v, "$ref") == Some(r)
    ensures RefTarget(root, v).None? <==>
              !("#/" <= r) || LeadsNowhere(root, SplitPath(r[2..]))
  {
    if "#/" <= r {
      LookupFindsNothing(root, SplitPath(r[2..]));
      assert RefTarget(root, v) == Lookup(root, SplitPath(r[2..]));
    }
  }

  function AnyOf(v: Value): Option<seq<Value>> { GetArr(v, "anyOf") }
  function Items(v: Value): Option<Value> { Get(v, "items") }

  /** A followed reference hides the node's other members. */
  function Children(root: Value, v: Value): seq<Value> {
    match RefTarget(root, v)
    case Some(t) => [t]
    case None => (if AnyOf(v).Some? then AnyOf(v).value else []) + (if Items(v).Some? then [Items(v).value] else [])
  }

  // ---------------------------------------------------------------- rank

  function Edges(root: Value): Value -> seq<Value> {
    v => Children(root, v)
  }

  ghost predicate Acyclic(root: Value, v: Value) {
    Ranked(Edges(root), v)
  }

  /** The rank: the length of the longest path. */
  ghost function Depth(root: Value, v: Value): nat
    requires Acyclic(root, v)
  {
    Rank(Edges(root), v)
  }

  /** Every edge lowers the rank. */
  lemma EdgeLowersDepth(root: Value, v: Value)
    requires Acyclic(root, v)
    ensures forall c :: c in Children(root, v) ==> Acyclic(root, c) && Depth(root, c) < Depth(root, v)
  {
    forall c | c in Children(root, v)
      ensures Acyclic(root, c) && Depth(root, c) < Depth(root, v)
    {
      EdgeLowersRank(Edges(root), v, c);
    }
  }

  // ---------------------------------------------------------------- rank exists iff there is no cycle

  function SubValues(v: Value): set<Value>
    decreases v
  {
    {v} + match v
          case Arr(items) => set i, x | 0 <= i < |items| && x in SubValues(items[i]) :: x
          case Obj(fields) => set i, x | 0 <= i < |fields| && x in SubValues(fields[i].value) :: x
          case _ => {}
  }

  lemma {:induction false} SubValuesNest(v: Value, x: Value)
    requires x in SubValues(v)
    ensures SubValues(x) <= SubValues(v)
    decreases v
  {
    if x != v {
      match v
      case Arr(items) =>
        var i :| 0 <= i < |items| && x in SubValues(items[i]);
        SubValuesNest(items[i], x);
      case Obj(fields) =>
        var i :| 0 <= i < |fields| && x in SubValues(fields[i].value);
        SubValuesNest(fields[i].value, x);
      case _ =>
    }
  }

  lemma GetIsSubValue(v: Value, key: string)
    requires Get(v, key).Some?
    ensures Get(v, key).value in SubValues(v)
  {
    var i :| 0 <= i < |v.fields| && v.fields[i] == Field(key, Get(v, key).value);
    assert v.fields[i].value in SubValues(v.fields[i].value);
  }

  lemma {:induction false} LookupIsSubValue(v: Value, path: seq<string>)
    requires Lookup(v, path).Some?
    ensures Lookup(v, path).value in SubValues(v)
    decreases |path|
  {
    if path != [] {
      var next := Get(v, path[0]).value;
      GetIsSubValue(v, path[0]);
      LookupIsSubValue(next, path[1..]);
      SubValuesNest(v, next);
    }
  }

  /** The finitely many values a path can pass. */
  ghost function World(root: Value, v: Value): set<Value> {
    SubValues(root) + SubValues(v)
  }

  lemma ChildrenStayInWorld(root: Value, v: Value, x: Value, c: Value)
    requires x in World(root, v) && c in Children(root, x)
    ensures c in World(root, v)
  {
    if RefTarget(root, x).Some? {
      LookupIsSubValue(root, SplitPath(GetStr(x, "$ref").value[2..]));
    } else {
      if AnyOf(x).Some? && c in AnyOf(x).value {
        GetIsSubValue(x, "anyOf");
        var i :| 0 <= i < |AnyOf(x).value| && AnyOf(x).value[i] == c;
        var list := Get(x, "anyOf").value;
        assert c in SubValues(list.items[i]);
        assert c in SubValues(list);
        SubValuesNest(x, list);
      } else {
        GetIsSubValue(x, "items");
      }
      assert c in SubValues(x);
      if x in SubValues(root) { SubValuesNest(root, x); } else { SubValuesNest(v, x); }
    }
  }

  /** A schema has a rank exactly when no path of `$ref`, `anyOf` and `items` edges from it
      comes back to a node it has passed. */
  lemma RankedIffNoLoop(root: Value, v: Value)
    ensures Acyclic(root, v) <==> forall p :: !Loops(Edges(root), v, p)
  {
    forall x, c | x in World(root, v) && c in Edges(root)(x) ensures c in World(root, v) {
      ChildrenStayInWorld(root, v, x, c);
    }
    Ranks.RankedIffNoLoop(Edges(root), v, World(root, v));
  }

  // ---------------------------------------------------------------- resolution

  /** The chain of references from `v` has at most `n` links. */
  ghost predicate ChainEnds(root: Value, v: Value, n: nat)
    decreases n
  {
    match RefTarget(root, v)
    case None => true
    case Some(t) => n > 0 && ChainEnds(root, t, n - 1)
  }

  ghost predicate Resolvable(root: Value, v: Value) {
    exists n: nat :: ChainEnds(root, v, n)
  }

  lemma {:induction false} UnfoldingChainEnds(root: Value, v: Value, n: nat)
    requires Within(Edges(root), v, n)
    ensures ChainEnds(root, v, n)
    decreases n
  {
    match RefTarget(root, v)
    case None =>
    case Some(t) =>
      assert t in Edges(root)(v);
      UnfoldingChainEnds(root, t, n - 1);
  }

  /** The end of the reference chain. */
  ghost function Resolve(root: Value, v: Value): Value
    requires Acyclic(root, v)
    decreases Depth(root, v)
  {
    match RefTarget(root, v)
    case None => v
    case Some(t) => EdgeLowersDepth(root, v); Resolve(root, t)
  }

  lemma {:induction false} ResolveEnds(root: Value, v: Value)
    requires Acyclic(root, v)
    ensures var u := Resolve(root, v);
            RefTarget(root, u).None? && Acyclic(root, u) && Depth(root, u) <= Depth(root, v)
    ensures RefTarget(root, v).None? ==> Resolve(root, v) == v
    decreases Depth(root, v)
  {
    if RefTarget(root, v).Some? {
      EdgeLowersDepth(root, v);
      ResolveEnds(root, RefTarget(root, v).value);
    }
  }

  /** Where a chain of at most `n` links ends. */
  ghost function Final(root: Value, v: Value, n: nat): Value
    requires ChainEnds(root, v, n)
    decreases n
  {
    match RefTarget(root, v)
    case None => v
    case Some(t) => Final(root, t, n - 1)
  }

  lemma {:induction false} FinalIsUnique(root: Value, v: Value, n: nat, m: nat)
    requires ChainEnds(root, v, n) && ChainEnds(root, v, m)
    ensures Final(root, v, n) == Final(root, v, m)
    decreases n
  {
    if RefTarget(root, v).Some? {
      FinalIsUnique(root, RefTarget(root, v).value, n - 1, m - 1);
    }
  }

  lemma {:induction false} FinalIsResolved(root: Value, v: Value, n: nat)
    requires Acyclic(root, v) && ChainEnds(root, v, n)
    ensures Final(root, v, n) == Resolve(root, v)
    decreases n
  {
    if RefTarget(root, v).Some? {
      EdgeLowersDepth(root, v);
      FinalIsResolved(root, RefTarget(root, v).value, n - 1);
    }
  }

  /** The code's loop ends wherever the chain of references does, whatever loops there may
      be through other members, and at its end. */
  method ResolveSchema(schema: Value, root: Value) returns (current: Value)
    requires Resolvable(root, schema)
    ensures RefTarget(root, current).None?
    ensures forall n: nat :: ChainEnds(root, schema, n) ==> current == Final(root, schema, n)
  {
    ghost var links: nat :| ChainEnds(root, schema, links);
    ghost var left := links;
    current := schema;
    while true
      invariant ChainEnds(root, current, left) && Final(root, current, left) == Final(root, schema, links)
      decreases left
    {
      var reference := GetStr(current, "$ref");
      if reference.None? || !("#/" <= reference.value) {
        break;
      }
      var resolved := Lookup(root, SplitPath(reference.value[2..]));
      if resolved.None? {
        break;
      }
      current, left := resolved.value, left - 1;
    }
    forall n: nat | ChainEnds(root, schema, n) ensures current == Final(root, schema, n) {
      FinalIsUnique(root, schema, n, links);
    }
  }

  // ---------------------------------------------------------------- shapes

  datatype ScalarShape = StringShape | IntegerShape | NumberShape | BooleanShape
  datatype Shape = Scalar(scalar: ScalarShape) | Array(item: ScalarShape) | JsonShape | NullShape

  predicate MatchesEnumShape(v: Value, shape: ScalarShape) {
    match shape
    case StringShape => v.Str?
    case IntegerShape => v.Num? && v.n.Integer?
    case NumberShape => v.Num?
    case BooleanShape => v.Bool?
  }

  function InferEnumShape(values: seq<Value>): Option<ScalarShape> {
    if values == [] then None
    else
      var first := match values[0]
                   case Str(_) => Some(StringShape)
                   case Num(Integer(_)) => Some(IntegerShape)
                   case Num(Fraction(_)) => Some(NumberShape)
                   case Bool(_) => Some(BooleanShape)
                   case _ => None;
      if first.Some? && forall i :: 1 <= i < |values| ==> MatchesEnumShape(values[i], first.value) then first else None
  }

  predicate AllMatch(values: seq<Value>, shape: ScalarShape) {
    forall i :: 0 <= i < |values| ==> MatchesEnumShape(values[i], shape)
  }

  /** An inferred shape fits every value, and the only values with a common shape that are
      not recognised are numbers that begin with a whole one and contain a fraction: there
      the order decides. */
  lemma EnumMissesOnlyFractionsBehindAnInteger(values: seq<Value>)
    requires values != []
    ensures InferEnumShape(values).Some? ==> AllMatch(values, InferEnumShape(values).value)
    ensures InferEnumShape(values).None? && (exists s :: AllMatch(values, s)) <==>
            AllMatch(values, NumberShape) && MatchesEnumShape(values[0], IntegerShape) &&
                !AllMatch(values, IntegerShape)
  {
    if s :| AllMatch(values, s) {
      assert MatchesEnumShape(values[0], s);
    }
    if AllMatch(values, NumberShape) {
      assert MatchesEnumShape(values[0], NumberShape);
    }
  }

  predicate AllWhole(values: seq<Value>) {
    forall v :: v in values ==> v.Num? && v.n.Integer?
  }

  predicate AllFractions(values: seq<Value>) {
    forall v :: v in values ==> v.Num? && v.n.Fraction?
  }

  /** Numbers only, some of them whole and some not. */
  predicate MixesNumbers(values: seq<Value>) {
    (forall v :: v in values ==> v.Num?) && !AllWhole(values) && !AllFractions(values)
  }

  lemma MatchesByMembers(values: seq<Value>, shape: ScalarShape)
    ensures AllMatch(values, shape) <==> forall v :: v in values ==> MatchesEnumShape(v, shape)
  {
    if AllMatch(values, shape) {
      forall v | v in values ensures MatchesEnumShape(v, shape) {
        var i :| 0 <= i < |values| && values[i] == v;
      }
    }
  }

  function FirstKind(v: Value): Option<ScalarShape> {
    match v
    case Str(_) => Some(StringShape)
    case Num(Integer(_)) => Some(IntegerShape)
    case Num(Fraction(_)) => Some(NumberShape)
    case Bool(_) => Some(BooleanShape)
    case _ => None
  }

  lemma InferredByFirst(values: seq<Value>)
    requires values != []
    ensures InferEnumShape(values) ==
            if FirstKind(values[0]).Some? &&
                AllMatch(values, FirstKind(values[0]).value) then FirstKind(values[0]) else None
  {
  }

  /** Without mixed numbers, one shape for all members leaves the first member no choice. */
  lemma KindIsShared(values: seq<Value>, v: Value, s: ScalarShape)
    requires !MixesNumbers(values) && v in values
    requires exists w :: w in values && FirstKind(w) == Some(s)
    requires forall w :: w in values ==> MatchesEnumShape(w, s)
    ensures FirstKind(v) == Some(s)
  {
  }

  lemma SameInferenceOneWay(a: seq<Value>, b: seq<Value>)
    requires !MixesNumbers(a) && (forall v :: v in a <==> v in b)
    ensures InferEnumShape(a).Some? ==> InferEnumShape(b) == InferEnumShape(a)
  {
    if InferEnumShape(a).Some? {
      var s := InferEnumShape(a).value;
      InferredByFirst(a);
      assert a[0] in a;
      MatchesByMembers(a, s);
      MatchesByMembers(b, s);
      assert b != [] && b[0] in b;
      KindIsShared(a, b[0], s);
      InferredByFirst(b);
    }
  }

  lemma ReorderedMembers(a: seq<Value>, b: seq<Value>)
    requires multiset(a) == multiset(b)
    ensures forall v :: v in a <==> v in b
  {
    forall v ensures v in a <==> v in b {
      assert v in a <==> v in multiset(a);
      assert v in b <==> v in multiset(b);
    }
  }

  /** The values with the one at `i` put first. */
  function Fronted(values: seq<Value>, i: nat): seq<Value>
    requires i < |values|
  {
    [values[i]] + values[..i] + values[i + 1..]
  }

  lemma FrontedReorders(values: seq<Value>, i: nat)
    requires i < |values|
    ensures multiset(Fronted(values, i)) == multiset(values) && Fronted(values, i)[0] == values[i]
  {
    assert values == values[..i] + [values[i]] + values[i + 1..];
  }

  lemma MixedNumbersInferByFirst(values: seq<Value>)
    requires MixesNumbers(values) && values != []
    ensures InferEnumShape(values) == if values[0].n.Fraction? then Some(NumberShape) else None
  {
    assert values[0] in values;
    InferredByFirst(values);
    MatchesByMembers(values, FirstKind(values[0]).value);
  }

  /** An enum's shape is the same in every order of its values exactly when they are not
      numbers of both kinds. */
  lemma EnumOrderMattersIff(values: seq<Value>)
    ensures (forall p :: multiset(p) == multiset(values) ==> InferEnumShape(p) == InferEnumShape(values)) <==>
            !MixesNumbers(values)
  {
    if MixesNumbers(values) {
      var v :| v in values && !(v.Num? && v.n.Integer?);
      var w :| w in values && !(w.Num? && w.n.Fraction?);
      var i :| 0 <= i < |values| && values[i] == v;
      var j :| 0 <= j < |values| && values[j] == w;
      FrontedReorders(values, i);
      FrontedReorders(values, j);
      ReorderedMembers(Fronted(values, i), values);
      ReorderedMembers(Fronted(values, j), values);
      MixedNumbersInferByFirst(Fronted(values, i));
      MixedNumbersInferByFirst(Fronted(values, j));
    } else {
      forall p | multiset(p) == multiset(values) ensures InferEnumShape(p) == InferEnumShape(values) {
        ReorderedMembers(p, values);
        SameInferenceOneWay(p, values);
        SameInferenceOneWay(values, p);
      }
    }
  }

  /** The order does matter: 1 before 2.5 is not recognised, 2.5 before 1 is. */
  lemma EnumOrderWitness()
    ensures InferEnumShape([Num(Integer(1)), Num(Fraction(2.5))]) == None
    ensures InferEnumShape([Num(Fraction(2.5)), Num(Integer(1))]) == Some(NumberShape)
  {
    var a, b := [Num(Integer(1)), Num(Fraction(2.5))], [Num(Fraction(2.5)), Num(Integer(1))];
    assert !MatchesEnumShape(a[1], IntegerShape);
    assert MatchesEnumShape(b[1], NumberShape);
  }

  /** The shape of a node without `anyOf`, given the shape of its `items`. */
  function NodeShape(v: Value, items: Option<Shape>): Shape {
    if Get(v, "properties").Some? && Get(v, "properties").value.Obj? then JsonShape
    else TypedShape(GetStr(v, "type"), items, EnumShape(v))
  }

  function TypedShape(type_: Option<string>, items: Option<Shape>, untyped: Shape): Shape {
    match type_
    case Some(t) =>
      if t == "null" then NullShape
      else if t == "boolean" then Scalar(BooleanShape)
      else if t == "string" then Scalar(StringShape)
      else if t == "integer" then Scalar(IntegerShape)
      else if t == "number" then Scalar(NumberShape)
      else if t == "array" then
        (match items
         case Some(Scalar(s)) => Array(s)
         case _ => JsonShape)
      else if t == "object" then JsonShape
      else untyped
    case None => untyped
  }

  /** What each type says of a node without properties: the scalars and `null` speak for
      themselves, an array is one exactly for scalar items, an object is JSON, and any other
      type, or none, leaves it to the enum. */
  lemma TypesSpeak(v: Value, items: Option<Shape>)
    requires Get(v, "properties").None? || !Get(v, "properties").value.Obj?
    ensures GetStr(v, "type") == Some("null") ==> NodeShape(v, items) == NullShape
    ensures GetStr(v, "type") == Some("boolean") ==> NodeShape(v, items) == Scalar(BooleanShape)
    ensures GetStr(v, "type") == Some("string") ==> NodeShape(v, items) == Scalar(StringShape)
    ensures GetStr(v, "type") == Some("integer") ==> NodeShape(v, items) == Scalar(IntegerShape)
    ensures GetStr(v, "type") == Some("number") ==> NodeShape(v, items) == Scalar(NumberShape)
  {
  }

  lemma CompoundTypesSpeak(v: Value, items: Option<Shape>)
    requires Get(v, "properties").None? || !Get(v, "properties").value.Obj?
    ensures GetStr(v, "type") == Some("object") ==> NodeShape(v, items) == JsonShape
    ensures GetStr(v, "type") == Some("array") ==>
              NodeShape(v, items) == if items.Some? && items.value.Scalar? then Array(items.value.scalar) else JsonShape
  {
  }

  lemma UntypedIsItsEnum(v: Value, items: Option<Shape>)
    requires Get(v, "properties").None? || !Get(v, "properties").value.Obj?
    requires GetStr(v, "type").Some? ==>
               GetStr(v, "type").value !in {"null", "boolean", "string", "integer", "number", "array", "object"}
    ensures NodeShape(v, items) ==
            match GetArr(v, "enum")
            case None => JsonShape
            case Some(values) =>
              if InferEnumShape(values).Some? then Scalar(InferEnumShape(values).value) else JsonShape
  {
  }

  lemma PropertiesAreJson(v: Value, items: Option<Shape>)
    requires Get(v, "properties").Some? && Get(v, "properties").value.Obj?
    ensures NodeShape(v, items) == JsonShape
  {
  }

  /** What an enum's values say: all texts, all truth values, all whole numbers, or numbers of
      which the first is a fraction. */
  lemma EnumsSpeak(values: seq<Value>)
    ensures InferEnumShape(values) == Some(StringShape) <==> values != [] && forall v :: v in values ==> v.Str?
    ensures InferEnumShape(values) == Some(BooleanShape) <==> values != [] && forall v :: v in values ==> v.Bool?
    ensures InferEnumShape(values) == Some(IntegerShape) <==>
              values != [] && forall v :: v in values ==> v.Num? && v.n.Integer?
    ensures InferEnumShape(values) == Some(NumberShape) <==>
              values != [] && values[0].Num? && values[0].n.Fraction? && forall v :: v in values ==> v.Num?
  {
    if values != [] {
      InferredByFirst(values);
      assert values[0] in values;
      MatchesByMembers(values, StringShape);
      MatchesByMembers(values, BooleanShape);
      MatchesByMembers(values, IntegerShape);
      MatchesByMembers(values, NumberShape);
    }
  }

  /** Only a scalar item makes an array. */
  lemma ArrayOfItems(v: Value, items: Option<Shape>, x: ScalarShape)
    requires NodeShape(v, items) == Array(x)
    ensures items == Some(Scalar(x))
  {
    assert !EnumShape(v).Array?;
  }

  function EnumShape(v: Value): Shape {
    match GetArr(v, "enum")
    case None => JsonShape
    case Some(values) =>
      match InferEnumShape(values)
      case Some(s) => Scalar(s)
      case None => JsonShape
  }

  function Kinds(shapes: seq<Shape>): set<Shape> {
    set s | s in shapes && s != NullShape
  }

  /** `anyOf` by the set of its non-null shapes: none is null, one is that one, more is JSON. */
  ghost function ShapeOfKinds(kinds: set<Shape>): Shape {
    if kinds == {} then NullShape
    else
      var s :| s in kinds;
      if kinds == {s} then s else JsonShape
  }

  method MergeAnyOfScalars(first: Shape, rest: seq<Shape>) returns (merged: Option<Shape>)
    ensures merged == if first.Scalar? && forall s :: s in rest ==> s == first then Some(first) else None
  {
    if !first.Scalar? {
      return None;
    }
    if forall i :: 0 <= i < |rest| ==> rest[i] == Scalar(first.scalar) {
      return Some(first);
    }
    ghost var k :| 0 <= k < |rest| && rest[k] != first;
    assert rest[k] in rest;
    if first.scalar == StringShape && forall i :: 0 <= i < |rest| ==> rest[i] == Scalar(StringShape) {
      return Some(Scalar(StringShape));
    }
    return None;
  }

  /** The code's answer depends only on the set of non-null shapes: order, repetition and
      the merge step make no difference. */
  method ClassifyAnyOf(variants: seq<Shape>) returns (r: Shape)
    ensures r == ShapeOfKinds(Kinds(variants))
  {
    var shapes := [];
    for i := 0 to |variants|
      invariant forall s :: s in shapes <==> s in variants[..i] && s != NullShape
    {
      assert variants[..i + 1] == variants[..i] + [variants[i]];
      if variants[i] != NullShape {
        shapes := shapes + [variants[i]];
      }
    }
    assert variants[..|variants|] == variants;
    ghost var kinds := Kinds(variants);
    assert forall s :: s in kinds <==> s in shapes;
    if |shapes| == 0 {
      assert kinds == {};
      return NullShape;
    }
    var first := shapes[0];
    ghost var all := shapes;
    shapes := shapes[1..];
    assert first in kinds && all == [first] + shapes;
    if forall i :: 0 <= i < |shapes| ==> shapes[i] == first {
      assert kinds == {first};
      return first;
    }
    ghost var k :| 0 <= k < |shapes| && shapes[k] != first;
    assert shapes[k] in kinds && first in kinds;
    var merged := MergeAnyOfScalars(first, shapes);
    match merged
    case Some(shape) => return shape;
    case None => return JsonShape;
  }

  // ---------------------------------------------------------------- classification

  /** Everything below a resolved node has a lower rank than the schema it came from. */
  lemma BelowResolved(root: Value, v: Value)
    requires Acyclic(root, v)
    ensures var u := Resolve(root, v);
            && (AnyOf(u).Some? ==> forall i :: 0 <= i < |AnyOf(u).value| ==>
                  Acyclic(root, AnyOf(u).value[i]) && Depth(root, AnyOf(u).value[i]) < Depth(root, v))
            && (Items(u).Some? ==> Acyclic(root, Items(u).value) && Depth(root, Items(u).value) < Depth(root, v))
  {
    var u := Resolve(root, v);
    ResolveEnds(root, v);
    EdgeLowersDepth(root, u);
    if AnyOf(u).Some? {
      forall i | 0 <= i < |AnyOf(u).value|
        ensures AnyOf(u).value[i] in Children(root, u)
      {
      }
    }
    if Items(u).Some? {
      assert Items(u).value in Children(root, u);
    }
  }

  ghost function Classify(root: Value, v: Value): Shape
    requires Acyclic(root, v)
    decreases Depth(root, v)
  {
    var u := Resolve(root, v);
    BelowResolved(root, v);
    match AnyOf(u)
    case Some(variants) =>
      ShapeOfKinds(Kinds(seq(|variants|, i requires 0 <= i < |variants| => Classify(root, variants[i]))))
    case None =>
      NodeShape(u, match Items(u) case Some(x) => Some(Classify(root, x)) case None => None)
  }

  ghost function ClassifyAll(root: Value, vs: seq<Value>): seq<Shape>
    requires forall i :: 0 <= i < |vs| ==> Acyclic(root, vs[i])
  {
    seq(|vs|, i requires 0 <= i < |vs| => Classify(root, vs[i]))
  }

  /** A node's `anyOf` decides alone, whatever else the node says: it is null exactly when all
      its variants are, a scalar or an array exactly when all but the null ones are that,
      and JSON otherwise. */
  lemma AnyOfDecides(root: Value, v: Value, vs: seq<Value>, x: Shape)
    requires Acyclic(root, v) && GetArr(Resolve(root, v), "anyOf") == Some(vs)
    ensures forall i :: 0 <= i < |vs| ==> Acyclic(root, vs[i])
    ensures var shapes := ClassifyAll(root, vs);
            && (Classify(root, v) == NullShape <==> forall i :: 0 <= i < |shapes| ==> shapes[i] == NullShape)
            && (x.Scalar? || x.Array? ==>
                  (Classify(root, v) == x <==>
                     && (exists i :: 0 <= i < |shapes| && shapes[i] == x)
                     && forall i :: 0 <= i < |shapes| ==> shapes[i] == x || shapes[i] == NullShape))
  {
    ClassifyByVariants(root, v, vs);
    KindsDecide(ClassifyAll(root, vs), x);
  }

  lemma ClassifyByVariants(root: Value, v: Value, vs: seq<Value>)
    requires Acyclic(root, v) && AnyOf(Resolve(root, v)) == Some(vs)
    ensures forall i :: 0 <= i < |vs| ==> Acyclic(root, vs[i])
    ensures Classify(root, v) == ShapeOfKinds(Kinds(ClassifyAll(root, vs)))
  {
    BelowResolved(root, v);
  }

  lemma KindsDecide(shapes: seq<Shape>, x: Shape)
    ensures ShapeOfKinds(Kinds(shapes)) == NullShape <==> forall i :: 0 <= i < |shapes| ==> shapes[i] == NullShape
    ensures x.Scalar? || x.Array? ==>
              (ShapeOfKinds(Kinds(shapes)) == x <==>
                 && (exists i :: 0 <= i < |shapes| && shapes[i] == x)
                 && forall i :: 0 <= i < |shapes| ==> shapes[i] == x || shapes[i] == NullShape)
  {
    var kinds := Kinds(shapes);
    assert forall i :: 0 <= i < |shapes| ==> shapes[i] in shapes;
    assert forall s :: s in kinds <==> s in shapes && s != NullShape;
    if x in kinds && forall s :: s in kinds ==> s == x {
      assert kinds == {x};
    }
  }

  /** A reference classifies as what it leads to. */
  lemma ReferencesAreFollowed(root: Value, v: Value, t: Value)
    requires Acyclic(root, v) && RefTarget(root, v) == Some(t)
    ensures Acyclic(root, t) && Classify(root, v) == Classify(root, t)
  {
    EdgeLowersDepth(root, v);
  }

  /** The recursive classification itself. */
  method ClassifySchemaShape(root: Value, schema: Value) returns (r: Shape)
    requires Acyclic(root, schema)
    ensures r == Classify(root, schema)
    decreases Depth(root, schema), 2
  {
    ghost var depth := Depth(root, schema);
    RankIsLeast(Edges(root), schema);
    UnfoldingChainEnds(root, schema, depth);
    var u := ResolveSchema(schema, root);
    FinalIsResolved(root, schema, depth);
    BelowResolved(root, schema);
    match AnyOf(u)
    case Some(variants) =>
      var shapes := ClassifyEach(root, variants, Depth(root, schema), ClassifyAll(root, variants));
      r := ClassifyAnyOf(shapes);
    case None =>
      match Items(u)
      case Some(items) =>
        var item := ClassifySchemaShape(root, items);
        r := NodeShape(u, Some(item));
      case None =>
        r := NodeShape(u, None);
  }

  /** Variant `i` has a rank below `bound`, and the shape `want[i]`. */
  ghost predicate Lower(root: Value, vs: seq<Value>, bound: nat, want: seq<Shape>, i: nat) {
    && i < |vs| == |want| && Acyclic(root, vs[i]) && Depth(root, vs[i]) < bound
    && want[i] == Classify(root, vs[i])
  }

  method ClassifyVariant(root: Value, vs: seq<Value>, i: nat, ghost bound: nat, ghost want: seq<Shape>)
    returns (shape: Shape)
    requires Lower(root, vs, bound, want, i)
    ensures shape == want[i]
    decreases bound, 0
  {
    shape := ClassifySchemaShape(root, vs[i]);
  }

  method ClassifyEach(root: Value, vs: seq<Value>, ghost bound: nat, ghost want: seq<Shape>)
    returns (shapes: seq<Shape>)
    requires |want| == |vs| && forall i: nat :: i < |vs| ==> Lower(root, vs, bound, want, i)
    ensures shapes == want
    decreases bound, 1
  {
    shapes := [];
    for i := 0 to |vs|
      invariant shapes == want[..i]
    {
      var shape := ClassifyVariant(root, vs, i, bound, want);
      shapes := shapes + [shape];
    }
  }

  // ---------------------------------------------------------------- inlining references

  /** The schema with the references of every node that classification can reach replaced
      by what they lead to. */
  ghost function Inline(root: Value, v: Value): Value
    requires Acyclic(root, v)
    decreases Depth(root, v), 1, 0
  {
    var u := Resolve(root, v);
    BelowResolved(root, v);
    match u
    case Obj(fields) => Obj(InlineFields(root, v, fields))
    case _ => u
  }

  ghost function InlineFields(root: Value, v: Value, fields: seq<Field>): (r: seq<Field>)
    requires Acyclic(root, v)
    decreases Depth(root, v), 0, |fields|
    ensures |r| == |fields|
  {
    if fields == [] then []
    else [Field(fields[0].key, InlineMember(root, v, fields[0]))] + InlineFields(root, v, fields[1..])
  }

  ghost function InlineMember(root: Value, v: Value, f: Field): Value
    requires Acyclic(root, v)
    decreases Depth(root, v), 0, 0
  {
    var u := Resolve(root, v);
    BelowResolved(root, v);
    if f.key == "anyOf" && AnyOf(u).Some? && f.value == Arr(AnyOf(u).value) then
      Arr(seq(|AnyOf(u).value|, i requires 0 <= i < |AnyOf(u).value| => Inline(root, AnyOf(u).value[i])))
    else if f.key == "items" && Items(u) == Some(f.value) then Inline(root, f.value)
    else f.value
  }

  /** No reference can be followed at any node that classification can reach. */
  ghost predicate RefFree(root: Value, w: Value)
    decreases w
  {
    && RefTarget(root, w).None?
    && (PlainItems(w).Some? ==> forall i :: 0 <= i < |PlainItems(w).value| ==> RefFree(root, PlainItems(w).value[i]))
    && (Items(w).Some? ==> RefFree(root, Items(w).value))
  }

  /** Classification of a schema without references: `$ref` is never looked at. */
  function PlainItems(v: Value): (r: Option<seq<Value>>)
    ensures r.Some? ==> forall i :: 0 <= i < |r.value| ==> r.value[i] < v
  {
    AnyOf(v)
  }

  ghost function ClassifyPlain(v: Value): Shape
    decreases v
  {
    match PlainItems(v)
    case Some(variants) =>
      ShapeOfKinds(Kinds(seq(|variants|, i requires 0 <= i < |variants| => ClassifyPlain(variants[i]))))
    case None =>
      NodeShape(v, match Items(v) case Some(x) => Some(ClassifyPlain(x)) case None => None)
  }

  lemma {:induction false} FindInlined(root: Value, v: Value, fields: seq<Field>, key: string)
    requires Acyclic(root, v)
    ensures Find(InlineFields(root, v, fields), key) ==
            match Find(fields, key)
            case Some(x) => Some(InlineMember(root, v, Field(key, x)))
            case None => None
    decreases |fields|
  {
    if fields != [] {
      FindInlined(root, v, fields[1..], key);
      assert InlineFields(root, v, fields)[1..] == InlineFields(root, v, fields[1..]);
    }
  }

  /** A member of the inlined node is the inlined member of the resolved one. */
  lemma GetInlined(root: Value, v: Value, key: string)
    requires Acyclic(root, v)
    ensures Get(Inline(root, v), key) ==
            match Get(Resolve(root, v), key)
            case Some(x) => Some(InlineMember(root, v, Field(key, x)))
            case None => None
  {
    var u := Resolve(root, v);
    if u.Obj? {
      FindInlined(root, v, u.fields, key);
    }
  }

  lemma InlinedVariants(root: Value, v: Value, ws: seq<Value>)
    requires Acyclic(root, v) && AnyOf(Inline(root, v)) == Some(ws)
    ensures AnyOf(Resolve(root, v)).Some? && |AnyOf(Resolve(root, v)).value| == |ws|
    ensures var vs := AnyOf(Resolve(root, v)).value;
            forall i :: 0 <= i < |vs| ==>
              Acyclic(root, vs[i]) && Depth(root, vs[i]) < Depth(root, v) && ws[i] == Inline(root, vs[i])
  {
    BelowResolved(root, v);
    GetInlined(root, v, "anyOf");
  }

  lemma InlinedItems(root: Value, v: Value, w: Value)
    requires Acyclic(root, v) && Items(Inline(root, v)) == Some(w)
    ensures Items(Resolve(root, v)).Some?
    ensures var x := Items(Resolve(root, v)).value;
            Acyclic(root, x) && Depth(root, x) < Depth(root, v) && w == Inline(root, x)
  {
    BelowResolved(root, v);
    GetInlined(root, v, "items");
  }

  /** Inlining leaves nothing to follow. */
  lemma {:induction false} InlinedIsRefFree(root: Value, v: Value)
    requires Acyclic(root, v)
    ensures RefFree(root, Inline(root, v))
    decreases Depth(root, v)
  {
    var w := Inline(root, v);
    OtherMembersStay(root, v, "$ref");
    ResolveEnds(root, v);
    assert GetStr(w, "$ref") == GetStr(Resolve(root, v), "$ref");
    if PlainItems(w).Some? {
      var ws := PlainItems(w).value;
      InlinedVariants(root, v, ws);
      forall i | 0 <= i < |ws| ensures RefFree(root, ws[i]) {
        InlinedIsRefFree(root, AnyOf(Resolve(root, v)).value[i]);
      }
    }
    if Items(w).Some? {
      InlinedItems(root, v, Items(w).value);
      InlinedIsRefFree(root, Items(Resolve(root, v)).value);
    }
  }

  lemma SameMembersSameShape(a: Value, b: Value, items: Option<Shape>)
    requires Get(a, "properties") == Get(b, "properties") && Get(a, "type") == Get(b, "type")
    requires Get(a, "enum") == Get(b, "enum")
    ensures NodeShape(a, items) == NodeShape(b, items)
  {
    assert GetStr(a, "type") == GetStr(b, "type");
    assert GetArr(a, "enum") == GetArr(b, "enum");
    assert EnumShape(a) == EnumShape(b);
  }

  lemma OtherMembersStay(root: Value, v: Value, key: string)
    requires Acyclic(root, v) && key != "anyOf" && key != "items"
    ensures Get(Inline(root, v), key) == Get(Resolve(root, v), key)
  {
    GetInlined(root, v, key);
  }

  lemma NodeShapeInlined(root: Value, v: Value, items: Option<Shape>)
    requires Acyclic(root, v)
    ensures NodeShape(Inline(root, v), items) == NodeShape(Resolve(root, v), items)
  {
    OtherMembersStay(root, v, "properties");
    OtherMembersStay(root, v, "type");
    OtherMembersStay(root, v, "enum");
    SameMembersSameShape(Inline(root, v), Resolve(root, v), items);
  }

  ghost function ClassifyPlainAll(ws: seq<Value>): seq<Shape> {
    seq(|ws|, i requires 0 <= i < |ws| => ClassifyPlain(ws[i]))
  }

  lemma PlainByVariants(w: Value, ws: seq<Value>)
    requires AnyOf(w) == Some(ws)
    ensures ClassifyPlain(w) == ShapeOfKinds(Kinds(ClassifyPlainAll(ws)))
  {
    assert PlainItems(w) == Some(ws);
  }

  lemma VariantsMatchInlined(root: Value, v: Value, vs: seq<Value>)
    requires Acyclic(root, v) && AnyOf(Resolve(root, v)) == Some(vs)
    requires forall i :: 0 <= i < |vs| ==>
              Acyclic(root, vs[i]) && Classify(root, vs[i]) == ClassifyPlain(Inline(root, vs[i]))
    ensures Classify(root, v) == ClassifyPlain(Inline(root, v))
  {
    GetInlined(root, v, "anyOf");
    var ws := AnyOf(Inline(root, v)).value;
    InlinedVariants(root, v, ws);
    ClassifyByVariants(root, v, vs);
    PlainByVariants(Inline(root, v), ws);
    assert ClassifyAll(root, vs) == ClassifyPlainAll(ws);
  }

  lemma NodeMatchesInlined(root: Value, v: Value)
    requires Acyclic(root, v) && AnyOf(Resolve(root, v)).None?
    requires var items := Items(Resolve(root, v));
             items.Some? ==>
               Acyclic(root, items.value) && Classify(root, items.value) == ClassifyPlain(Inline(root, items.value))
    ensures Classify(root, v) == ClassifyPlain(Inline(root, v))
  {
    BelowResolved(root, v);
    GetInlined(root, v, "anyOf");
    GetInlined(root, v, "items");
    assert PlainItems(Inline(root, v)).None?;
    match Items(Resolve(root, v))
    case Some(x) => NodeShapeInlined(root, v, Some(Classify(root, x)));
    case None => NodeShapeInlined(root, v, None);
  }

  /** Following references during classification gives what classifying the inlined schema
      gives. */
  lemma {:induction false} ClassifyMatchesInlined(root: Value, v: Value)
    requires Acyclic(root, v)
    ensures Classify(root, v) == ClassifyPlain(Inline(root, v))
    decreases Depth(root, v)
  {
    var u := Resolve(root, v);
    BelowResolved(root, v);
    match AnyOf(u)
    case Some(vs) =>
      forall i | 0 <= i < |vs|
        ensures Classify(root, vs[i]) == ClassifyPlain(Inline(root, vs[i]))
      {
        ClassifyMatchesInlined(root, vs[i]);
      }
      VariantsMatchInlined(root, v, vs);
    case None =>
      if Items(u).Some? {
        ClassifyMatchesInlined(root, Items(u).value);
      }
      NodeMatchesInlined(root, v);
  }

  // ---------------------------------------------------------------- array items

  function FirstSome<T>(xs: seq<Option<T>>): (r: Option<T>)
    ensures r.Some? ==> exists i :: 0 <= i < |xs| && xs[i] == r
    ensures r.None? ==> forall i :: 0 <= i < |xs| ==> xs[i].None?
  {
    if xs == [] then None
    else if xs[0].Some? then xs[0]
    else
      var r := FirstSome(xs[1..]);
      assert forall i :: 0 <= i < |xs| - 1 ==> xs[1..][i] == xs[i + 1];
      r
  }

  /** The item schema of an array: the node's own `items`, else that of the first variant
      classified as an array that has one. */
  ghost function ArrayItem(root: Value, v: Value): (r: Option<Value>)
    requires Acyclic(root, v)
    ensures r.Some? ==> Acyclic(root, r.value)
    decreases Depth(root, v)
  {
    var u := Resolve(root, v);
    BelowResolved(root, v);
    if Items(u).Some? then
      ResolveEnds(root, Items(u).value);
      Some(Resolve(root, Items(u).value))
    else match AnyOf(u)
         case Some(vs) =>
           FirstSome(seq(|vs|, i requires 0 <= i < |vs| =>
             if Classify(root, vs[i]).Array? then ArrayItem(root, vs[i]) else None))
         case None => None
  }

  lemma ResolvedClassifiesAlike(root: Value, v: Value)
    requires Acyclic(root, v)
    ensures Acyclic(root, Resolve(root, v)) && Classify(root, Resolve(root, v)) == Classify(root, v)
  {
    ResolveEnds(root, v);
    ResolveEnds(root, Resolve(root, v));
  }

  /** The first array among the shapes. */
  function FirstArray(shapes: seq<Shape>): (k: nat)
    requires exists s :: s in shapes && s.Array?
    ensures k < |shapes| && shapes[k].Array? && forall i :: 0 <= i < k ==> !shapes[i].Array?
  {
    if shapes[0].Array? then 0 else FirstArray(shapes[1..]) + 1
  }

  lemma ArrayKinds(shapes: seq<Shape>, x: ScalarShape)
    requires ShapeOfKinds(Kinds(shapes)) == Array(x)
    ensures Kinds(shapes) == {Array(x)} && Array(x) in shapes
    ensures forall s :: s in shapes && s.Array? ==> s == Array(x)
  {
    var kinds := Kinds(shapes);
    assert kinds == {Array(x)};
    assert Array(x) in kinds;
    assert forall s :: s in shapes && s.Array? ==> s in kinds;
  }

  /** An array schema without `items` of its own is one for its variants' sake. */
  lemma ArrayIsInVariants(root: Value, v: Value, x: ScalarShape)
    requires Acyclic(root, v) && Classify(root, v) == Array(x)
    ensures AnyOf(Resolve(root, v)).None? ==> Items(Resolve(root, v)).Some?
    ensures AnyOf(Resolve(root, v)).Some? ==>
              var vs := AnyOf(Resolve(root, v)).value;
              && (forall i :: 0 <= i < |vs| ==> Acyclic(root, vs[i]) && Depth(root, vs[i]) < Depth(root, v))
              && Array(x) in ClassifyAll(root, vs)
              && (forall s :: s in ClassifyAll(root, vs) && s.Array? ==> s == Array(x))
  {
    BelowResolved(root, v);
    match AnyOf(Resolve(root, v))
    case None =>
    case Some(vs) => ArrayKinds(ClassifyAll(root, vs), x);
  }

  /** The node whose own `items` the item schema is: down the first variants that are arrays. */
  ghost function Holder(root: Value, v: Value): Value
    requires Acyclic(root, v) && Classify(root, v).Array?
    decreases Depth(root, v)
  {
    var u := Resolve(root, v);
    ArrayIsInVariants(root, v, Classify(root, v).item);
    if Items(u).Some? then u
    else
      var vs := AnyOf(u).value;
      Holder(root, vs[FirstArray(ClassifyAll(root, vs))])
  }

  lemma {:induction false} FirstSomeAt<T>(xs: seq<Option<T>>, k: nat)
    requires k < |xs| && xs[k].Some? && forall i :: 0 <= i < k ==> xs[i].None?
    ensures FirstSome(xs) == xs[k]
  {
    if k > 0 {
      FirstSomeAt(xs[1..], k - 1);
    }
  }

  /** The item schema is what its holder's `items` resolve to. */
  ghost predicate ItemIsHolders(root: Value, v: Value)
    requires Acyclic(root, v) && Classify(root, v).Array?
  {
    var h := Holder(root, v);
    && Items(h).Some? && Acyclic(root, Items(h).value)
    && ArrayItem(root, v) == Some(Resolve(root, Items(h).value))
    && (AnyOf(h).None? ==> Classify(root, Items(h).value) == Scalar(Classify(root, v).item))
  }

  lemma ItemOfVariants(root: Value, v: Value, x: ScalarShape, k: nat)
    requires Acyclic(root, v) && Classify(root, v) == Array(x)
    requires Items(Resolve(root, v)).None? && AnyOf(Resolve(root, v)).Some?
    requires var vs := AnyOf(Resolve(root, v)).value;
             && (forall i :: 0 <= i < |vs| ==> Acyclic(root, vs[i])) && k < |vs|
             && Classify(root, vs[k]).Array? && (forall i :: 0 <= i < k ==> !Classify(root, vs[i]).Array?)
             && ArrayItem(root, vs[k]).Some?
    ensures ArrayItem(root, v) == ArrayItem(root, AnyOf(Resolve(root, v)).value[k])
  {
    BelowResolved(root, v);
    var vs := AnyOf(Resolve(root, v)).value;
    var found := seq(|vs|, i requires 0 <= i < |vs| =>
      if Classify(root, vs[i]).Array? then ArrayItem(root, vs[i]) else None);
    FirstSomeAt(found, k);
  }

  lemma OwnItems(root: Value, v: Value, x: ScalarShape)
    requires Acyclic(root, v) && Classify(root, v) == Array(x) && Items(Resolve(root, v)).Some?
    ensures ItemIsHolders(root, v)
  {
    var u := Resolve(root, v);
    BelowResolved(root, v);
    OwnItemIsFirst(root, v);
    if AnyOf(u).None? {
      ArrayOfItems(u, Some(Classify(root, Items(u).value)), x);
    }
  }

  lemma OwnItemIsFirst(root: Value, v: Value)
    requires Acyclic(root, v) && Items(Resolve(root, v)).Some?
    ensures Acyclic(root, Items(Resolve(root, v)).value)
    ensures ArrayItem(root, v) == Some(Resolve(root, Items(Resolve(root, v)).value))
    ensures Classify(root, v).Array? ==> Holder(root, v) == Resolve(root, v)
  {
    BelowResolved(root, v);
  }

  /** The first array variant, where there are no `items`. */
  lemma FirstArrayVariant(root: Value, v: Value, x: ScalarShape) returns (k: nat)
    requires Acyclic(root, v) && Classify(root, v) == Array(x) && Items(Resolve(root, v)).None?
    ensures AnyOf(Resolve(root, v)).Some?
    ensures var vs := AnyOf(Resolve(root, v)).value;
            && (forall i :: 0 <= i < |vs| ==> Acyclic(root, vs[i]) && Depth(root, vs[i]) < Depth(root, v))
            && k < |vs| && Classify(root, vs[k]) == Array(x) && Holder(root, v) == Holder(root, vs[k])
            && (forall i :: 0 <= i < k ==> !Classify(root, vs[i]).Array?)
  {
    ArrayIsInVariants(root, v, x);
    var vs := AnyOf(Resolve(root, v)).value;
    var shapes := ClassifyAll(root, vs);
    k := FirstArray(shapes);
    assert shapes[k] == Classify(root, vs[k]) && shapes[k] in shapes;
    assert forall i :: 0 <= i < k ==> shapes[i] == Classify(root, vs[i]);
  }

  lemma {:induction false} ItemComesFromHolder(root: Value, v: Value, x: ScalarShape)
    requires Acyclic(root, v) && Classify(root, v) == Array(x)
    ensures ItemIsHolders(root, v)
    decreases Depth(root, v)
  {
    if Items(Resolve(root, v)).Some? {
      OwnItems(root, v, x);
    } else {
      var k := FirstArrayVariant(root, v, x);
      ItemComesFromHolder(root, AnyOf(Resolve(root, v)).value[k], x);
      ItemOfVariants(root, v, x, k);
    }
  }

  /** A schema classified as an array always has an item schema, so the fallback to JSON is
      never taken; and that item classifies to the array's scalar exactly when the node
      whose `items` it is has no `anyOf`, or `items` that happen to agree. */
  lemma ArrayHasItem(root: Value, v: Value, x: ScalarShape)
    requires Acyclic(root, v) && Classify(root, v) == Array(x)
    ensures ArrayItem(root, v).Some? && Items(Holder(root, v)).Some? && Acyclic(root, Items(Holder(root, v)).value)
    ensures Classify(root, ArrayItem(root, v).value) == Scalar(x) <==>
            AnyOf(Holder(root, v)).None? || Classify(root, Items(Holder(root, v)).value) == Scalar(x)
  {
    ItemComesFromHolder(root, v, x);
    ResolvedClassifiesAlike(root, Items(Holder(root, v)).value);
  }

  datatype ScalarKind = ScalarKind(shape: ScalarShape, enumValues: seq<Value>, format: Option<string>)
  datatype ParameterKind = ScalarParameter(kind: ScalarKind) | ArrayParameter(kind: ScalarKind) | JsonParameter

  function KindOf(schema: Value, shape: ScalarShape): ScalarKind {
    var values := match GetArr(schema, "enum") case Some(vs) => vs case None => [];
    ScalarKind(shape, if shape.BooleanShape? then [] else values,
               if shape.StringShape? then GetStr(schema, "format") else None)
  }

  ghost function ParameterKindOf(root: Value, schema: Value): ParameterKind
    requires Acyclic(root, schema)
  {
    match Classify(root, schema)
    case Scalar(s) => ScalarParameter(KindOf(schema, s))
    case Array(s) =>
      (match ArrayItem(root, schema)
       case Some(items) => ArrayParameter(KindOf(items, s))
       case None => JsonParameter)
    case _ => JsonParameter
  }

  /** A parameter is an array of scalars exactly when its schema is classified as one, and
      falls back to JSON only for the JSON and null shapes. */
  lemma ParameterKindFollowsShape(root: Value, schema: Value)
    requires Acyclic(root, schema)
    ensures var kind, shape := ParameterKindOf(root, schema), Classify(root, schema);
            && (kind.ArrayParameter? <==> shape.Array?) && (kind.ArrayParameter? ==> kind.kind.shape == shape.item)
            && (kind.JsonParameter? <==> shape.JsonShape? || shape.NullShape?)
  {
    match Classify(root, schema)
    case Array(s) => ArrayHasItem(root, schema, s);
    case _ =>
  }

  /** What a parameter carries: the enum's values, whatever they are, except for a boolean;
      and the format of a text only. For an array they are its item's. */
  lemma ParameterCarries(root: Value, schema: Value)
    requires Acyclic(root, schema)
    ensures var kind := ParameterKindOf(root, schema);
            match Classify(root, schema)
            case Scalar(s) => kind.ScalarParameter? && kind.kind.shape == s && Carries(schema, kind.kind)
            case Array(s) =>
              && ArrayItem(root, schema).Some? && kind.ArrayParameter? && kind.kind.shape == s
              && Carries(ArrayItem(root, schema).value, kind.kind)
            case _ => kind.JsonParameter?
  {
    match Classify(root, schema)
    case Scalar(s) => KindCarries(schema, s);
    case Array(s) =>
      ArrayHasItem(root, schema, s);
      KindCarries(ArrayItem(root, schema).value, s);
    case _ =>
  }

  lemma KindCarries(schema: Value, shape: ScalarShape)
    ensures Carries(schema, KindOf(schema, shape)) && KindOf(schema, shape).shape == shape
  {
  }

  predicate Carries(schema: Value, kind: ScalarKind) {
    && (!kind.shape.BooleanShape? && GetArr(schema, "enum").Some? ==> GetArr(schema, "enum") == Some(kind.enumValues))
    && (kind.shape.BooleanShape? || GetArr(schema, "enum").None? ==> kind.enumValues == [])
    && kind.format == (if kind.shape.StringShape? then GetStr(schema, "format") else None)
  }

  const STRINGS := Obj([Field("type", Str("string"))])
  const INTEGERS := Obj([Field("type", Str("integer"))])
  const STRING_ARRAY := Obj([Field("type", Str("array")), Field("items", STRINGS)])
  const MIXED := Obj([Field("anyOf", Arr([STRING_ARRAY])), Field("items", INTEGERS)])

  /** A node without a reference has one rank more than what it holds. */
  lemma NodeIsRanked(root: Value, v: Value, n: nat)
    requires GetStr(v, "$ref") == None
    requires AnyOf(v).Some? ==> forall c :: c in AnyOf(v).value ==> Within(Edges(root), c, n)
    requires Items(v).Some? ==> Within(Edges(root), Items(v).value, n)
    ensures Within(Edges(root), v, n + 1) && Acyclic(root, v) && Resolve(root, v) == v
  {
    assert RefTarget(root, v) == None;
    assert Edges(root)(v) == Children(root, v);
    assert Within(Edges(root), v, n + 1);
    ResolveEnds(root, v);
  }

  lemma TypedLeaf(root: Value, t: string, shape: Shape)
    requires (t == "string" && shape == Scalar(StringShape)) || (t == "integer" && shape == Scalar(IntegerShape))
    ensures var leaf := Obj([Field("type", Str(t))]);
            Within(Edges(root), leaf, 0) && Acyclic(root, leaf) && Resolve(root, leaf) == leaf &&
                Classify(root, leaf) == shape
  {
    var leaf := Obj([Field("type", Str(t))]);
    assert Get(leaf, "type") == Some(Str(t)) && GetStr(leaf, "$ref") == None && AnyOf(leaf) == None &&
        Items(leaf) == None;
    assert Edges(root)(leaf) == [];
    assert Within(Edges(root), leaf, 0);
    ResolveEnds(root, leaf);
  }

  lemma StringArrayMembers()
    ensures GetStr(STRING_ARRAY, "$ref") == None && AnyOf(STRING_ARRAY) == None && Items(STRING_ARRAY) == Some(STRINGS)
    ensures Get(STRING_ARRAY, "properties") == None && GetStr(STRING_ARRAY, "type") == Some("array")
  {
    GetOfTwo(STRING_ARRAY.fields[0], STRING_ARRAY.fields[1]);
  }

  lemma StringArray(root: Value)
    ensures Within(Edges(root), STRING_ARRAY, 1) && Acyclic(root, STRING_ARRAY) &&
              Classify(root, STRING_ARRAY) == Array(StringShape)
  {
    TypedLeaf(root, "string", Scalar(StringShape));
    StringArrayMembers();
    NodeIsRanked(root, STRING_ARRAY, 0);
  }

  lemma MixedMembers()
    ensures GetStr(MIXED, "$ref") == None && AnyOf(MIXED) == Some([STRING_ARRAY]) && Items(MIXED) == Some(INTEGERS)
  {
    GetOfTwo(MIXED.fields[0], MIXED.fields[1]);
  }

  lemma MixedIsRanked()
    ensures Within(Edges(MIXED), MIXED, 2) && Acyclic(MIXED, MIXED) && Resolve(MIXED, MIXED) == MIXED
  {
    MixedMembers();
    TypedLeaf(MIXED, "integer", Scalar(IntegerShape));
    StringArray(MIXED);
    WithinMore(Edges(MIXED), INTEGERS, 0, 1);
    NodeIsRanked(MIXED, MIXED, 1);
  }

  /** With both on one node the item may classify differently: an array of strings whose
      own `items` are integers. */
  lemma MixedNodeMisleads()
    ensures Acyclic(MIXED, MIXED) && Classify(MIXED, MIXED) == Array(StringShape)
    ensures ArrayItem(MIXED, MIXED) == Some(INTEGERS) && Acyclic(MIXED, INTEGERS) &&
              Classify(MIXED, INTEGERS) == Scalar(IntegerShape)
  {
    MixedMembers();
    MixedIsRanked();
    TypedLeaf(MIXED, "integer", Scalar(IntegerShape));
    StringArray(MIXED);
    BelowResolved(MIXED, MIXED);
    assert seq(1, i requires 0 <= i < 1 => Classify(MIXED, [STRING_ARRAY][i])) == [Array(StringShape)];
    assert Kinds([Array(StringShape)]) == {Array(StringShape)};
  }
}
