/** Canonical JSON of a JavaScript object graph: the recursive normaliser with its
    set of objects on the current path, and the text every digest is taken of. */
module CanonicalJson {
  import opened Order
  import opened JsonText

  type Ref = nat

  /** The numeral that prints a finite number. */
  type Numeral = s: string | IsNumeral(s) witness NumeralWitness()

  function NumeralWitness(): (s: string)
    ensures IsNumeral(s)
  {
    assert ReadNumeral(Start, "0") == ReadNumeral(Zero, "0"[1..]);
    "0"
  }

  /** `Other` stands for functions, symbols and big integers. */
  datatype Value =
    | Undefined
    | Nil
    | Flag(flag: bool)
    | Number(numeral: Numeral)
    | NonFinite
    | Text(text: string)
    | Other
    | Reference(ref: Ref)

  datatype Property = Property(key: string, value: Value)

  /** A plain object is the history of its property assignments; `Exotic` stands for
      an object whose prototype is not `Object.prototype` or null. */
  datatype Object = Array(items: seq<Value>) | Plain(history: seq<Property>) | Exotic

  type Heap = map<Ref, Object>

  datatype Fault = NonFiniteNumber | Circular | UndefinedInArray | NotPlain | NotJson

  datatype Result<T> = Ok(value: T) | Throw(fault: Fault)

  /** The own properties left by a history of assignments. */
  function Properties(history: seq<Property>): map<string, Value> {
    if history == [] then map[]
    else
      var last := history[|history| - 1];
      Properties(history[..|history| - 1])[last.key := last.value]
  }

  // ----- the normaliser as a function of the graph and the current path

  function Normalize(h: Heap, v: Value, seen: set<Ref>): Result<Json>
    decreases h.Keys - seen, 0
  {
    match v
    case Nil => Ok(Null)
    case Text(text) => Ok(Str(text))
    case Flag(flag) => Ok(Bool(flag))
    case NonFinite => Throw(NonFiniteNumber)
    case Number(numeral) => Ok(Num(numeral))
    case Undefined => Throw(NotJson)
    case Other => Throw(NotJson)
    case Reference(ref) =>
      if ref !in h then Throw(NotJson)
      else if h[ref].Exotic? then Throw(NotPlain)
      else if ref in seen then Throw(Circular)
      else if h[ref].Array? then
        match NormalizeItems(h, h[ref].items, seen + {ref})
        case Ok(items) => Ok(Arr(items))
        case Throw(fault) => Throw(fault)
      else
        var properties := Properties(h[ref].history);
        match NormalizeMembers(h, Sorted(properties.Keys), properties, seen + {ref})
        case Ok(members) => Ok(Obj(members))
        case Throw(fault) => Throw(fault)
  }

  function NormalizeItems(h: Heap, items: seq<Value>, seen: set<Ref>): Result<seq<Json>>
    decreases h.Keys - seen, |items| + 1
  {
    if items == [] then Ok([])
    else if items[0] == Undefined then Throw(UndefinedInArray)
    else
      match Normalize(h, items[0], seen)
      case Throw(fault) => Throw(fault)
      case Ok(first) => Prepended([first], NormalizeItems(h, items[1..], seen))
  }

  function NormalizeMembers(
      h: Heap, keys: seq<string>, properties: map<string, Value>, seen: set<Ref>): Result<seq<Member>>
    requires forall k :: k in keys ==> k in properties
    decreases h.Keys - seen, |keys| + 1
  {
    if keys == [] then Ok([])
    else if properties[keys[0]] == Undefined then NormalizeMembers(h, keys[1..], properties, seen)
    else
      match Normalize(h, properties[keys[0]], seen)
      case Throw(fault) => Throw(fault)
      case Ok(first) => Prepended([Member(keys[0], first)], NormalizeMembers(h, keys[1..], properties, seen))
  }

  function Prepended<T>(done: seq<T>, rest: Result<seq<T>>): (r: Result<seq<T>>)
    ensures r.Ok? <==> rest.Ok?
  {
    match rest
    case Ok(more) => Ok(done + more)
    case Throw(fault) => Throw(fault)
  }

  // ----- the imperative normaliser

  /** The mutable set of objects on the current path. */
  class Seen {
    var refs: set<Ref>

    constructor ()
      ensures refs == {}
    {
      refs := {};
    }
  }

  /** The recursion of the program: the path grows on entry to an object, shrinks on
      exit, and is back to what it was whenever no error was thrown. */
  method NormalizeJson(h: Heap, v: Value, seen: Seen) returns (r: Result<Json>)
    modifies seen
    ensures r == Normalize(h, v, old(seen.refs))
    ensures r.Ok? ==> seen.refs == old(seen.refs)
    decreases h.Keys - seen.refs, 0
  {
    match v
    case Nil => r := Ok(Null);
    case Text(text) => r := Ok(Str(text));
    case Flag(flag) => r := Ok(Bool(flag));
    case NonFinite => r := Throw(NonFiniteNumber);
    case Number(numeral) => r := Ok(Num(numeral));
    case Undefined => r := Throw(NotJson);
    case Other => r := Throw(NotJson);
    case Reference(ref) =>
      if ref !in h {
        return Throw(NotJson);
      }
      if h[ref].Exotic? {
        return Throw(NotPlain);
      }
      if ref in seen.refs {
        return Throw(Circular);
      }
      ghost var before := seen.refs;
      seen.refs := seen.refs + {ref};
      if h[ref].Array? {
        var items := NormalizeArray(h, h[ref].items, seen);
        if items.Throw? {
          return Throw(items.fault);
        }
        r := Ok(Arr(items.value));
      } else {
        var properties := Properties(h[ref].history);
        var members := NormalizeObject(h, Sorted(properties.Keys), properties, seen);
        if members.Throw? {
          return Throw(members.fault);
        }
        r := Ok(Obj(members.value));
      }
      seen.refs := seen.refs - {ref};
      assert before + {ref} - {ref} == before;
  }

  method NormalizeArray(h: Heap, items: seq<Value>, seen: Seen) returns (r: Result<seq<Json>>)
    modifies seen
    ensures r == NormalizeItems(h, items, old(seen.refs))
    ensures r.Ok? ==> seen.refs == old(seen.refs)
    decreases h.Keys - seen.refs, 1
  {
    var normalized: seq<Json> := [];
    assert items[0..] == items;
    PrependNothing(NormalizeItems(h, items, seen.refs));
    for i := 0 to |items|
      invariant seen.refs == old(seen.refs)
      invariant NormalizeItems(h, items, seen.refs) == Prepended(normalized, NormalizeItems(h, items[i..], seen.refs))
    {
      assert items[i..][0] == items[i] && items[i..][1..] == items[i + 1..];
      if items[i] == Undefined {
        return Throw(UndefinedInArray);
      }
      var item := NormalizeJson(h, items[i], seen);
      if item.Throw? {
        return Throw(item.fault);
      }
      PrependTwice(normalized, [item.value], NormalizeItems(h, items[i + 1..], seen.refs));
      normalized := normalized + [item.value];
    }
    assert items[|items|..] == [] && normalized + [] == normalized;
    r := Ok(normalized);
  }

  method NormalizeObject(h: Heap, keys: seq<string>, properties: map<string, Value>, seen: Seen)
    returns (r: Result<seq<Member>>)
    requires forall k :: k in keys ==> k in properties
    modifies seen
    ensures r == NormalizeMembers(h, keys, properties, old(seen.refs))
    ensures r.Ok? ==> seen.refs == old(seen.refs)
    decreases h.Keys - seen.refs, 1
  {
    var normalized: seq<Member> := [];
    assert keys[0..] == keys;
    PrependNothing(NormalizeMembers(h, keys, properties, seen.refs));
    for i := 0 to |keys|
      invariant seen.refs == old(seen.refs)
      invariant NormalizeMembers(h, keys, properties, seen.refs) ==
                Prepended(normalized, NormalizeMembers(h, keys[i..], properties, seen.refs))
    {
      NextMember(h, keys, i, properties, seen.refs);
      if properties[keys[i]] != Undefined {
        var item := NormalizeJson(h, properties[keys[i]], seen);
        if item.Throw? {
          return Throw(item.fault);
        }
        PrependTwice(normalized, [Member(keys[i], item.value)],
                     NormalizeMembers(h, keys[i + 1..], properties, seen.refs));
        normalized := normalized + [Member(keys[i], item.value)];
      }
    }
    assert keys[|keys|..] == [] && normalized + [] == normalized;
    r := Ok(normalized);
  }

  lemma NextMember(h: Heap, keys: seq<string>, i: nat, properties: map<string, Value>, seen: set<Ref>)
    requires i < |keys| && forall k :: k in keys ==> k in properties
    ensures NormalizeMembers(h, keys[i..], properties, seen) ==
            if properties[keys[i]] == Undefined then NormalizeMembers(h, keys[i + 1..], properties, seen)
            else
              match Normalize(h, properties[keys[i]], seen)
              case Throw(fault) => Throw(fault)
              case Ok(first) =>
                Prepended([Member(keys[i], first)], NormalizeMembers(h, keys[i + 1..], properties, seen))
  {
    assert keys[i..][0] == keys[i] && keys[i..][1..] == keys[i + 1..];
  }

  lemma PrependNothing<T>(rest: Result<seq<T>>)
    ensures Prepended([], rest) == rest
  {
    if rest.Ok? { assert [] + rest.value == rest.value; }
  }

  lemma PrependTwice<T>(a: seq<T>, b: seq<T>, rest: Result<seq<T>>)
    ensures Prepended(a, Prepended(b, rest)) == Prepended(a + b, rest)
  {
    if rest.Ok? { assert a + (b + rest.value) == a + b + rest.value; }
  }

  // ----- what normalisation produces

  lemma {:induction false} NormalizeGivesNormal(h: Heap, v: Value, seen: set<Ref>)
    ensures Normalize(h, v, seen).Ok? ==> Normal(Normalize(h, v, seen).value)
    decreases h.Keys - seen, 0
  {
    if v.Reference? && v.ref in h && v.ref !in seen {
      match h[v.ref]
      case Array(items) => ItemsGiveNormal(h, items, seen + {v.ref});
      case Plain(history) =>
        MembersGiveNormal(h, Sorted(Properties(history).Keys), Properties(history), seen + {v.ref});
      case Exotic =>
    }
  }

  lemma {:induction false} ItemsGiveNormal(h: Heap, items: seq<Value>, seen: set<Ref>)
    ensures NormalizeItems(h, items, seen).Ok? ==> Normal(Arr(NormalizeItems(h, items, seen).value))
    decreases h.Keys - seen, |items| + 1
  {
    if items != [] {
      NormalizeGivesNormal(h, items[0], seen);
      ItemsGiveNormal(h, items[1..], seen);
    }
  }

  lemma {:induction false} MembersGiveNormal(h: Heap, keys: seq<string>, properties: map<string, Value>, seen: set<Ref>)
    requires Ascending(keys) && forall k :: k in keys ==> k in properties
    ensures var r := NormalizeMembers(h, keys, properties, seen);
            r.Ok? ==> Normal(Obj(r.value)) && forall m :: m in r.value ==> m.key in keys
    decreases h.Keys - seen, |keys| + 1
  {
    if keys != [] {
      NormalizeGivesNormal(h, properties[keys[0]], seen);
      MembersGiveNormal(h, keys[1..], properties, seen);
      var rest := NormalizeMembers(h, keys[1..], properties, seen);
      if rest.Ok? && rest.value != [] && properties[keys[0]] != Undefined
        && Normalize(h, properties[keys[0]], seen).Ok?
      {
        assert rest.value[0] in rest.value;
        PrependNormal(Member(keys[0], Normalize(h, properties[keys[0]], seen).value), rest.value);
      }
    }
  }

  // ----- canonical text

  /** The canonical text of a value, or the error its normalisation throws. */
  function Canonical(h: Heap, v: Value): Result<string> {
    match Normalize(h, v, {})
    case Ok(j) => Ok(Print(j))
    case Throw(fault) => Throw(fault)
  }

  /** Reading canonical text back gives exactly the normalised value. */
  lemma CanonicalReadsBack(h: Heap, v: Value)
    requires Canonical(h, v).Ok?
    ensures Parse(Canonical(h, v).value) == Parsed(Normalize(h, v, {}).value, "")
    ensures forall c :: c in Canonical(h, v).value ==> c != '\n'
  {
    NormalizeGivesNormal(h, v, {});
    RoundTrip(Normalize(h, v, {}).value);
    PrintHasNoControl(Normalize(h, v, {}).value);
  }

  /** Two values of two graphs have the same canonical text exactly when they
      normalise to the same value. */
  lemma CanonicalInjective(h1: Heap, v1: Value, h2: Heap, v2: Value)
    requires Canonical(h1, v1).Ok? && Canonical(h2, v2).Ok?
    ensures Canonical(h1, v1) == Canonical(h2, v2) <==> Normalize(h1, v1, {}) == Normalize(h2, v2, {})
  {
    CanonicalReadsBack(h1, v1);
    CanonicalReadsBack(h2, v2);
  }

  // ----- key order and undefined members do not matter

  /** The members that are not undefined. */
  function Visible(properties: map<string, Value>): map<string, Value> {
    map k | k in properties && properties[k] != Undefined :: properties[k]
  }

  ghost predicate SameContent(a: Object, b: Object) {
    || a == b
    || (a.Plain? && b.Plain? && Visible(Properties(a.history)) == Visible(Properties(b.history)))
  }

  /** The same graph up to the order of assignments and undefined members. */
  ghost predicate SameGraph(g: Heap, h: Heap) {
    g.Keys == h.Keys && forall r :: r in g ==> SameContent(g[r], h[r])
  }

  function VisibleKeys(keys: seq<string>, properties: map<string, Value>): seq<string>
    requires forall k :: k in keys ==> k in properties
  {
    if keys == [] then []
    else (if properties[keys[0]] == Undefined then [] else [keys[0]]) + VisibleKeys(keys[1..], properties)
  }

  lemma {:induction false} VisibleKeysAscending(keys: seq<string>, properties: map<string, Value>)
    requires Ascending(keys) && forall k :: k in keys ==> k in properties
    ensures Ascending(VisibleKeys(keys, properties))
    ensures forall k :: k in VisibleKeys(keys, properties) <==> k in keys && properties[k] != Undefined
  {
    if keys != [] {
      VisibleKeysAscending(keys[1..], properties);
      var rest := VisibleKeys(keys[1..], properties);
      assert forall k :: k in keys <==> k == keys[0] || k in keys[1..];
      assert forall i :: 0 <= i < |rest| ==> rest[i] in rest;
    }
  }

  lemma {:induction false} UndefinedIgnored(h: Heap, keys: seq<string>, properties: map<string, Value>, seen: set<Ref>)
    requires forall k :: k in keys ==> k in properties
    requires forall k :: k in VisibleKeys(keys, properties) ==> k in Visible(properties)
    ensures NormalizeMembers(h, keys, properties, seen) ==
            NormalizeMembers(h, VisibleKeys(keys, properties), Visible(properties), seen)
  {
    if keys != [] {
      var rest := VisibleKeys(keys[1..], properties);
      UndefinedIgnored(h, keys[1..], properties, seen);
      if properties[keys[0]] != Undefined {
        assert VisibleKeys(keys, properties)[1..] == rest;
      } else {
        assert VisibleKeys(keys, properties) == rest;
      }
    }
  }

  lemma OnlyVisibleMatters(h: Heap, properties: map<string, Value>, seen: set<Ref>)
    ensures NormalizeMembers(h, Sorted(properties.Keys), properties, seen) ==
            NormalizeMembers(h, Sorted(Visible(properties).Keys), Visible(properties), seen)
  {
    var keys := Sorted(properties.Keys);
    VisibleKeysAscending(keys, properties);
    AscendingUnique(VisibleKeys(keys, properties), Sorted(Visible(properties).Keys));
    UndefinedIgnored(h, keys, properties, seen);
  }

  /** Graphs that differ only in assignment order and undefined members normalise
      alike, errors included. */
  lemma {:induction false} KeyOrderIgnored(g: Heap, h: Heap, v: Value, seen: set<Ref>)
    requires SameGraph(g, h)
    ensures Normalize(g, v, seen) == Normalize(h, v, seen)
    decreases g.Keys - seen, 0
  {
    if v.Reference? && v.ref in g && v.ref !in seen {
      assert SameContent(g[v.ref], h[v.ref]);
      match g[v.ref]
      case Array(items) => KeyOrderIgnoredItems(g, h, items, seen + {v.ref});
      case Exotic =>
      case Plain(history) =>
        var p, q := Properties(history), Properties(h[v.ref].history);
        OnlyVisibleMatters(g, p, seen + {v.ref});
        OnlyVisibleMatters(h, q, seen + {v.ref});
        KeyOrderIgnoredMembers(g, h, Sorted(Visible(p).Keys), Visible(p), seen + {v.ref});
    }
  }

  lemma {:induction false} KeyOrderIgnoredItems(g: Heap, h: Heap, items: seq<Value>, seen: set<Ref>)
    requires SameGraph(g, h)
    ensures NormalizeItems(g, items, seen) == NormalizeItems(h, items, seen)
    decreases g.Keys - seen, |items| + 1
  {
    if items != [] {
      KeyOrderIgnored(g, h, items[0], seen);
      KeyOrderIgnoredItems(g, h, items[1..], seen);
    }
  }

  lemma {:induction false} KeyOrderIgnoredMembers(
      g: Heap, h: Heap, keys: seq<string>, properties: map<string, Value>, seen: set<Ref>)
    requires SameGraph(g, h) && forall k :: k in keys ==> k in properties
    ensures NormalizeMembers(g, keys, properties, seen) == NormalizeMembers(h, keys, properties, seen)
    decreases g.Keys - seen, |keys| + 1
  {
    if keys != [] {
      KeyOrderIgnored(g, h, properties[keys[0]], seen);
      KeyOrderIgnoredMembers(g, h, keys[1..], properties, seen);
    }
  }

  // ----- the value a graph denotes, independently of the normaliser

  /** The tree `j` is what the value `v` of graph `h` denotes: items in order, and one
      member for each defined property and no other. */
  ghost predicate Denotes(h: Heap, v: Value, j: Json)
    decreases j
  {
    match j
    case Null => v == Nil
    case Bool(flag) => v == Flag(flag)
    case Str(text) => v == Text(text)
    case Num(numeral) => v.Number? && v.numeral == numeral
    case Arr(items) =>
      && v.Reference? && v.ref in h && h[v.ref].Array? && |h[v.ref].items| == |items|
      && forall i :: 0 <= i < |items| ==> Denotes(h, h[v.ref].items[i], items[i])
    case Obj(members) =>
      && v.Reference? && v.ref in h && h[v.ref].Plain?
      && var p := Visible(Properties(h[v.ref].history));
      && (forall k :: k in p <==> k in Keys(members))
      && forall i :: 0 <= i < |members| ==> members[i].key in p && Denotes(h, p[members[i].key], members[i].value)
  }

  lemma {:induction false} NormalizeDenotes(h: Heap, v: Value, seen: set<Ref>)
    ensures Normalize(h, v, seen).Ok? ==> Denotes(h, v, Normalize(h, v, seen).value)
    decreases h.Keys - seen, 0
  {
    if v.Reference? && v.ref in h && v.ref !in seen {
      match h[v.ref]
      case Array(items) => ItemsDenote(h, items, seen + {v.ref});
      case Plain(history) => MembersDenote(h, Sorted(Properties(history).Keys), Properties(history), seen + {v.ref});
      case Exotic =>
    }
  }

  lemma {:induction false} ItemsDenote(h: Heap, items: seq<Value>, seen: set<Ref>)
    ensures var r := NormalizeItems(h, items, seen);
            r.Ok? ==> |r.value| == |items| && forall i :: 0 <= i < |items| ==> Denotes(h, items[i], r.value[i])
    decreases h.Keys - seen, |items| + 1
  {
    if items != [] {
      NormalizeDenotes(h, items[0], seen);
      ItemsDenote(h, items[1..], seen);
    }
  }

  lemma {:induction false} MembersDenote(h: Heap, keys: seq<string>, properties: map<string, Value>, seen: set<Ref>)
    requires forall k :: k in keys ==> k in properties
    ensures var r := NormalizeMembers(h, keys, properties, seen);
            r.Ok? ==>
              && (forall k :: k in Keys(r.value) <==> k in keys && properties[k] != Undefined)
              && forall i :: 0 <= i < |r.value| ==>
                   Keys(r.value)[i] in properties && Denotes(h, properties[Keys(r.value)[i]], r.value[i].value)
    decreases h.Keys - seen, |keys| + 1
  {
    if keys != [] {
      NormalizeDenotes(h, properties[keys[0]], seen);
      MembersDenote(h, keys[1..], properties, seen);
      var all, rest := NormalizeMembers(h, keys, properties, seen), NormalizeMembers(h, keys[1..], properties, seen);
      if all.Ok? && properties[keys[0]] != Undefined {
        assert Keys(all.value) == [keys[0]] + Keys(rest.value);
      }
    }
  }

  /** A graph value denotes at most one normal tree, so the normalised value is the
      only one it could be. */
  lemma {:induction false} DenotesOne(h: Heap, v: Value, a: Json, b: Json)
    requires Normal(a) && Normal(b) && Denotes(h, v, a) && Denotes(h, v, b)
    ensures a == b
    decreases a
  {
    match a
    case Arr(items) =>
      forall i | 0 <= i < |items| ensures items[i] == b.items[i] {
        DenotesOne(h, h[v.ref].items[i], items[i], b.items[i]);
      }
      assert items == b.items;
    case Obj(members) =>
      var p := Visible(Properties(h[v.ref].history));
      AscendingUnique(Keys(members), Keys(b.members));
      forall i | 0 <= i < |members| ensures members[i] == b.members[i] {
        assert Keys(members)[i] == Keys(b.members)[i];
        DenotesOne(h, p[members[i].key], members[i].value, b.members[i].value);
      }
      assert members == b.members;
    case _ =>
  }

  // ----- whatever denotes a value normalises to it

  function Depth(j: Json): nat
    decreases j
  {
    match j
    case Arr(items) => 1 + ItemsDepth(items)
    case Obj(members) => 1 + MembersDepth(members)
    case _ => 0
  }

  function ItemsDepth(items: seq<Json>): nat
    decreases items
  {
    if items == [] then 0
    else if Depth(items[0]) < ItemsDepth(items[1..]) then ItemsDepth(items[1..]) else Depth(items[0])
  }

  function MembersDepth(members: seq<Member>): nat
    decreases members
  {
    if members == [] then 0
    else if Depth(members[0].value) < MembersDepth(members[1..]) then MembersDepth(members[1..])
    else Depth(members[0].value)
  }

  /** Every object on the path denotes a tree deeper than `depth`. */
  ghost predicate DeeperOnPath(h: Heap, seen: set<Ref>, depth: nat) {
    forall ref :: ref in seen ==> DenotesDeeper(h, ref, depth)
  }

  ghost predicate DenotesDeeper(h: Heap, ref: Ref, depth: nat) {
    exists t :: Normal(t) && Denotes(h, Reference(ref), t) && Depth(t) > depth
  }

  lemma PathGrows(h: Heap, seen: set<Ref>, ref: Ref, j: Json, depth: nat)
    requires DeeperOnPath(h, seen, Depth(j)) && Normal(j) && Denotes(h, Reference(ref), j) && depth < Depth(j)
    ensures DeeperOnPath(h, seen + {ref}, depth)
  {
    hide Depth, Normal, Denotes;
    forall r | r in seen + {ref} ensures DenotesDeeper(h, r, depth) {
      if r in seen {
        assert DenotesDeeper(h, r, Depth(j));
        var t :| Normal(t) && Denotes(h, Reference(r), t) && Depth(t) > Depth(j);
        assert Depth(t) > depth;
      }
    }
  }

  lemma PathLoosens(h: Heap, seen: set<Ref>, deep: nat, depth: nat)
    requires DeeperOnPath(h, seen, deep) && depth <= deep
    ensures DeeperOnPath(h, seen, depth)
  {
    hide Depth, Normal, Denotes;
    forall r | r in seen ensures DenotesDeeper(h, r, depth) {
      assert DenotesDeeper(h, r, deep);
      var t :| Normal(t) && Denotes(h, Reference(r), t) && Depth(t) > deep;
      assert Depth(t) > depth;
    }
  }

  /** An object on the path denotes a deeper tree, so it cannot denote this one. */
  lemma NotOnPath(h: Heap, seen: set<Ref>, ref: Ref, j: Json)
    requires DeeperOnPath(h, seen, Depth(j)) && Normal(j) && Denotes(h, Reference(ref), j)
    ensures ref !in seen
  {
    hide Depth, Normal, Denotes;
    if ref in seen {
      assert DenotesDeeper(h, ref, Depth(j));
      var t :| Normal(t) && Denotes(h, Reference(ref), t) && Depth(t) > Depth(j);
      DenotesOne(h, Reference(ref), j, t);
    }
  }

  /** The converse of `NormalizeDenotes`: a graph value that denotes a normal tree
      normalises to it. */
  lemma {:induction false} DenotedNormalizes(h: Heap, v: Value, j: Json, seen: set<Ref>)
    requires Normal(j) && Denotes(h, v, j) && DeeperOnPath(h, seen, Depth(j))
    ensures Normalize(h, v, seen) == Ok(j)
    decreases j, 2
  {
    hide DeeperOnPath, NormalizeItems, NormalizeMembers;
    match j
    case Arr(items) => ArrayNormalizes(h, v, j, seen);
    case Obj(members) => ObjectNormalizes(h, v, j, seen);
    case _ =>
  }

  lemma {:induction false} ArrayNormalizes(h: Heap, v: Value, j: Json, seen: set<Ref>)
    requires j.Arr? && Normal(j) && Denotes(h, v, j) && DeeperOnPath(h, seen, Depth(j))
    ensures Normalize(h, v, seen) == Ok(j)
    decreases j, 1
  {
    hide DeeperOnPath, NormalizeItems, NormalizeMembers;
    NotOnPath(h, seen, v.ref, j);
    PathGrows(h, seen, v.ref, j, ItemsDepth(j.items));
    ItemsNormalize(h, h[v.ref].items, j.items, seen + {v.ref});
  }

  lemma ObjectLists(h: Heap, v: Value, j: Json)
    requires j.Obj? && Normal(j) && Denotes(h, v, j)
    ensures v.Reference? && v.ref in h && h[v.ref].Plain?
    ensures var p := Properties(h[v.ref].history); Lists(h, Sorted(p.Keys), p, j.members)
    ensures Ascending(Keys(j.members))
  {
    hide Less;
  }

  lemma {:induction false} ObjectNormalizes(h: Heap, v: Value, j: Json, seen: set<Ref>)
    requires j.Obj? && Normal(j) && Denotes(h, v, j) && DeeperOnPath(h, seen, Depth(j))
    ensures Normalize(h, v, seen) == Ok(j)
    decreases j, 1
  {
    ObjectLists(h, v, j);
    hide DeeperOnPath, NormalizeItems, NormalizeMembers, Less, Lists, Ascending, Normal, Denotes, Sorted, Properties;
    NotOnPath(h, seen, v.ref, j);
    PathGrows(h, seen, v.ref, j, MembersDepth(j.members));
    var p := Properties(h[v.ref].history);
    MembersNormalize(h, Sorted(p.Keys), p, j.members, seen + {v.ref});
  }

  lemma {:induction false} ItemsNormalize(h: Heap, values: seq<Value>, items: seq<Json>, seen: set<Ref>)
    requires |values| == |items| && DeeperOnPath(h, seen, ItemsDepth(items))
    requires forall i :: 0 <= i < |items| ==> Normal(items[i]) && Denotes(h, values[i], items[i])
    ensures NormalizeItems(h, values, seen) == Ok(items)
    decreases items, 0
  {
    hide DeeperOnPath;
    if items != [] {
      PathLoosens(h, seen, ItemsDepth(items), Depth(items[0]));
      PathLoosens(h, seen, ItemsDepth(items), ItemsDepth(items[1..]));
      DenotedNormalizes(h, values[0], items[0], seen);
      ItemsNormalize(h, values[1..], items[1..], seen);
      assert [items[0]] + items[1..] == items;
    }
  }

  /** `members` lists just the defined ones of `keys`, and each denotes. */
  ghost predicate Lists(h: Heap, keys: seq<string>, properties: map<string, Value>, members: seq<Member>) {
    && (forall k :: k in keys ==> k in properties)
    && (forall k :: k in Keys(members) <==> k in keys && properties[k] != Undefined)
    && forall i :: 0 <= i < |members| ==>
         Normal(members[i].value) && Denotes(h, properties[members[i].key], members[i].value)
  }

  lemma {:induction false} MembersNormalize(
    h: Heap, keys: seq<string>, properties: map<string, Value>, members: seq<Member>, seen: set<Ref>)
    requires Ascending(keys) && Ascending(Keys(members)) && Lists(h, keys, properties, members)
    requires DeeperOnPath(h, seen, MembersDepth(members))
    ensures NormalizeMembers(h, keys, properties, seen) == Ok(members)
    decreases members, 0, |keys|
  {
    hide DeeperOnPath, Less, Normal, Denotes;
    if keys == [] {
      NothingListed(h, properties, members);
    } else if properties[keys[0]] == Undefined {
      SkipUndefined(h, keys, properties, members);
      MembersNormalize(h, keys[1..], properties, members, seen);
    } else {
      FirstListed(h, keys, properties, members);
      PathLoosens(h, seen, MembersDepth(members), Depth(members[0].value));
      PathLoosens(h, seen, MembersDepth(members), MembersDepth(members[1..]));
      DenotedNormalizes(h, properties[keys[0]], members[0].value, seen);
      MembersNormalize(h, keys[1..], properties, members[1..], seen);
      assert [Member(keys[0], members[0].value)] + members[1..] == members;
    }
  }

  lemma ListedKey(h: Heap, keys: seq<string>, properties: map<string, Value>, members: seq<Member>, i: nat)
    requires Lists(h, keys, properties, members) && i < |members|
    ensures Keys(members)[i] in keys
  {
    assert Keys(members)[i] in Keys(members);
  }

  lemma NothingListed(h: Heap, properties: map<string, Value>, members: seq<Member>)
    requires Lists(h, [], properties, members)
    ensures members == []
  {
    hide Lists;
    if members != [] { ListedKey(h, [], properties, members, 0); }
  }

  lemma SkipUndefined(h: Heap, keys: seq<string>, properties: map<string, Value>, members: seq<Member>)
    requires keys != [] && Lists(h, keys, properties, members) && properties[keys[0]] == Undefined
    ensures Lists(h, keys[1..], properties, members)
  {
    hide Normal, Denotes;
    assert keys == [keys[0]] + keys[1..];
  }

  /** The first defined key is that of the first member, in two ascending lists. */
  lemma FirstListed(h: Heap, keys: seq<string>, properties: map<string, Value>, members: seq<Member>)
    requires keys != [] && Ascending(keys) && Ascending(Keys(members)) && Lists(h, keys, properties, members)
    requires properties[keys[0]] != Undefined
    ensures members != [] && members[0].key == keys[0]
    ensures Ascending(keys[1..]) && Ascending(Keys(members[1..])) && Lists(h, keys[1..], properties, members[1..])
  {
    hide Normal, Denotes, Less;
    var names := Keys(members);
    assert keys[0] in names && names[0] in names;
    LessTrichotomy(keys[0], names[0]);
    LessTrichotomy(keys[0], keys[0]);
    assert names[0] == keys[0];
    assert keys == [keys[0]] + keys[1..] && names == [names[0]] + names[1..];
    assert Keys(members[1..]) == names[1..];
    forall k ensures k in names[1..] <==> k in keys[1..] && properties[k] != Undefined {
      if k in names[1..] { assert k in names; }
      if k in keys[1..] { assert k in keys; }
    }
  }

  /** Normalisation succeeds exactly on the graphs that denote a JSON value, and then
      gives that value. */
  lemma NormalizesExactly(h: Heap, v: Value, j: Json)
    ensures Normalize(h, v, {}).Ok? <==> exists t :: Normal(t) && Denotes(h, v, t)
    ensures Normalize(h, v, {}) == Ok(j) <==> Normal(j) && Denotes(h, v, j)
  {
    hide Normal, Denotes, Normalize;
    NormalizeDenotes(h, v, {});
    NormalizeGivesNormal(h, v, {});
    assert Normalize(h, v, {}).Ok? ==> Normal(Normalize(h, v, {}).value) && Denotes(h, v, Normalize(h, v, {}).value);
    forall t | Normal(t) && Denotes(h, v, t) ensures Normalize(h, v, {}) == Ok(t) {
      DenotedNormalizes(h, v, t, {});
    }
  }

  /** Canonicalising is idempotent: a graph that denotes what a canonical text parses to,
      such as the one a JSON parser builds, has that same text. */
  lemma CanonicalIsIdempotent(h: Heap, v: Value, j: Json, g: Heap, w: Value)
    requires Canonical(h, v).Ok? && Parse(Canonical(h, v).value) == Parsed(j, "") && Denotes(g, w, j)
    ensures Canonical(g, w) == Canonical(h, v)
  {
    hide Normal, Denotes, Normalize, Print, Parse;
    CanonicalReadsBack(h, v);
    NormalizeGivesNormal(h, v, {});
    NormalizesExactly(g, w, j);
  }

  // ----- exactly when normalisation throws

  predicate JsonLeaf(h: Heap, v: Value) {
    match v
    case Undefined => false
    case NonFinite => false
    case Other => false
    case Reference(ref) => ref in h
    case _ => true
  }

  /** Every leaf of every object is a JSON value; objects may be shared or cyclic. */
  ghost predicate JsonGraph(h: Heap) {
    forall r :: r in h ==>
      match h[r]
      case Exotic => false
      case Array(items) => forall i :: 0 <= i < |items| ==> JsonLeaf(h, items[i])
      case Plain(history) =>
        var p := Properties(history);
        forall k :: k in p && p[k] != Undefined ==> JsonLeaf(h, p[k])
  }

  /** Some item or defined member of object `a` is the value `v`. */
  ghost predicate Holds(h: Heap, a: Ref, v: Value) {
    a in h &&
    match h[a]
    case Exotic => false
    case Array(items) => v in items
    case Plain(history) => v != Undefined && v in Properties(history).Values
  }

  /** A walk through the graph that starts at the value `v`. */
  ghost predicate Walk(h: Heap, v: Value, path: seq<Ref>)
    decreases |path|
  {
    path != [] && v == Reference(path[0]) && path[0] in h &&
    (|path| == 1 || (Walk(h, Reference(path[1]), path[1..]) && Holds(h, path[0], Reference(path[1]))))
  }

  /** The walk ends at an object that is in `seen` or already on the walk. */
  ghost predicate Revisits(path: seq<Ref>, seen: set<Ref>) {
    path != [] && (path[|path| - 1] in seen || path[|path| - 1] in path[..|path| - 1])
  }

  /** A walk that begins with `ref` revisits `seen` exactly when its tail revisits
      `seen` enlarged by `ref`. */
  lemma RevisitStep(ref: Ref, tail: seq<Ref>, seen: set<Ref>)
    requires tail != []
    ensures Revisits([ref] + tail, seen) <==> Revisits(tail, seen + {ref})
  {
    var path := [ref] + tail;
    assert path[|path| - 1] == tail[|tail| - 1];
    assert path[..|path| - 1] == [ref] + tail[..|tail| - 1];
  }

  lemma {:induction false} RevisitThrows(h: Heap, v: Value, path: seq<Ref>, seen: set<Ref>)
    requires JsonGraph(h) && Walk(h, v, path) && Revisits(path, seen)
    ensures Normalize(h, v, seen).Throw?
    decreases |path|
  {
    var ref := path[0];
    if |path| > 1 && ref !in seen {
      var tail := path[1..];
      assert path == [ref] + tail;
      RevisitStep(ref, tail, seen);
      RevisitThrows(h, Reference(tail[0]), tail, seen + {ref});
      match h[ref]
      case Exotic =>
      case Array(items) =>
        var i :| 0 <= i < |items| && items[i] == Reference(tail[0]);
        ItemThrows(h, items, i, seen + {ref});
      case Plain(history) =>
        var p := Properties(history);
        var k :| k in p && p[k] == Reference(tail[0]);
        MemberThrows(h, Sorted(p.Keys), p, k, seen + {ref});
    }
  }

  lemma {:induction false} ItemThrows(h: Heap, items: seq<Value>, i: nat, seen: set<Ref>)
    requires i < |items| && Normalize(h, items[i], seen).Throw?
    ensures NormalizeItems(h, items, seen).Throw?
    decreases i
  {
    if i > 0 { ItemThrows(h, items[1..], i - 1, seen); }
  }

  lemma {:induction false} MemberThrows(
      h: Heap, keys: seq<string>, properties: map<string, Value>, k: string, seen: set<Ref>)
    requires k in keys && forall k :: k in keys ==> k in properties
    requires properties[k] != Undefined && Normalize(h, properties[k], seen).Throw?
    ensures NormalizeMembers(h, keys, properties, seen).Throw?
  {
    if keys[0] != k { MemberThrows(h, keys[1..], properties, k, seen); }
  }

  lemma {:induction false} ThrowRevisits(h: Heap, v: Value, seen: set<Ref>) returns (path: seq<Ref>)
    requires JsonGraph(h) && JsonLeaf(h, v) && Normalize(h, v, seen).Throw?
    ensures Walk(h, v, path) && Revisits(path, seen)
    ensures Normalize(h, v, seen) == Throw(Circular)
    decreases h.Keys - seen, 0
  {
    var ref := v.ref;
    if ref in seen {
      path := [ref];
    } else {
      var child: Value;
      if h[ref].Array? {
        child := ThrowingItem(h, h[ref].items, seen + {ref});
      } else {
        var p := Properties(h[ref].history);
        child := ThrowingMember(h, Sorted(p.Keys), p, seen + {ref});
      }
      var tail := ThrowRevisits(h, child, seen + {ref});
      path := [ref] + tail;
      assert path[1..] == tail;
      RevisitStep(ref, tail, seen);
    }
  }

  lemma {:induction false} ThrowingItem(h: Heap, items: seq<Value>, seen: set<Ref>) returns (child: Value)
    requires NormalizeItems(h, items, seen).Throw?
    requires forall i :: 0 <= i < |items| ==> JsonLeaf(h, items[i])
    ensures child in items && JsonLeaf(h, child) && Normalize(h, child, seen).Throw?
    ensures NormalizeItems(h, items, seen) == Throw(Normalize(h, child, seen).fault)
  {
    if Normalize(h, items[0], seen).Throw? {
      child := items[0];
    } else {
      child := ThrowingItem(h, items[1..], seen);
    }
  }

  lemma {:induction false} ThrowingMember(h: Heap, keys: seq<string>, properties: map<string, Value>, seen: set<Ref>)
    returns (child: Value)
    requires forall k :: k in keys ==> k in properties
    requires NormalizeMembers(h, keys, properties, seen).Throw?
    requires forall k :: k in properties && properties[k] != Undefined ==> JsonLeaf(h, properties[k])
    ensures child in properties.Values && child != Undefined && JsonLeaf(h, child) && Normalize(h, child, seen).Throw?
    ensures NormalizeMembers(h, keys, properties, seen) == Throw(Normalize(h, child, seen).fault)
  {
    var first := properties[keys[0]];
    if first != Undefined && Normalize(h, first, seen).Throw? {
      child := first;
    } else {
      child := ThrowingMember(h, keys[1..], properties, seen);
    }
  }

  /** On a graph whose leaves are all JSON values, normalisation throws exactly when
      some walk from the root comes back to an object already on the walk; sharing
      alone never throws. */
  lemma ThrowsExactlyOnCycles(h: Heap, v: Value)
    requires JsonGraph(h) && JsonLeaf(h, v)
    ensures Normalize(h, v, {}).Throw? <==> exists path :: Walk(h, v, path) && Revisits(path, {})
    ensures Normalize(h, v, {}).Throw? ==> Normalize(h, v, {}) == Throw(Circular)
  {
    if Normalize(h, v, {}).Throw? {
      var path := ThrowRevisits(h, v, {});
    }
    forall path | Walk(h, v, path) && Revisits(path, {}) ensures Normalize(h, v, {}).Throw? {
      RevisitThrows(h, v, path, {});
    }
  }
}
