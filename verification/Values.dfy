/** The Python values that configuration is made of, exceptions, and insertion-ordered dictionaries. */
module Values {
  import opened Seqs

  datatype Option<+T> = None | Some(value: T)

  datatype PyError = AssertionError | TypeError | IndexError

  datatype Result<+T> = Ok(value: T) | Err(error: PyError)

  /** `Set` lists the elements in the order the set iterates; `Config` is a ConfigObject: which one it
      is, and what its `to_dict` returns. */
  datatype Value =
    | PyNone
    | Bool(b: bool)
    | Int(i: int)
    | Str(s: string)
    | List(items: seq<Value>)
    | Dict(entries: seq<(string, Value)>)
    | Set(elems: seq<Value>)
    | Config(id: nat, printed: Value)

  /** `bool(v)` */
  predicate Truthy(v: Value) {
    match v
    case PyNone => false
    case Bool(b) => b
    case Int(i) => i != 0
    case Str(s) => s != ""
    case List(items) => items != []
    case Dict(entries) => entries != []
    case Set(elems) => elems != []
    case Config(_, _) => true
  }

  /** Exactly these are falsy: None, False, zero, and the empty string, list, dictionary and set. */
  lemma FalsyExactly(v: Value)
    ensures !Truthy(v) <==> v in [PyNone, Bool(false), Int(0), Str(""), List([]), Dict([]), Set([])]
  {
  }

  function Strs(ss: seq<string>): (vs: seq<Value>)
    ensures |vs| == |ss|
    ensures forall i :: 0 <= i < |ss| ==> vs[i] == Str(ss[i])
  {
    seq(|ss|, i requires 0 <= i < |ss| => Str(ss[i]))
  }

  // ----- equality and sets

  predicate IsNumber(v: Value) {
    v.Bool? || v.Int?
  }

  function NumberOf(v: Value): int
    requires IsNumber(v)
  {
    if v.Int? then v.i else if v.b then 1 else 0
  }

  /** Python's `==` on values that a set can hold: a Bool is the number it counts as. */
  predicate PyEqual(a: Value, b: Value) {
    a == b || (IsNumber(a) && IsNumber(b) && NumberOf(a) == NumberOf(b))
  }

  /** What a set can hold; adding anything else raises TypeError. */
  predicate Hashable(v: Value) {
    !v.List? && !v.Dict? && !v.Set?
  }

  /** True is the number 1 and False the number 0; everything else that a set can hold is equal to
      itself only. */
  lemma PyEqualExactly(v: Value, w: Value)
    ensures PyEqual(v, w) <==>
            match (v, w)
            case (Bool(b), Int(i)) => i == if b then 1 else 0
            case (Int(i), Bool(b)) => i == if b then 1 else 0
            case _ => v == w
  {
  }

  lemma HashableExactly(v: Value)
    ensures Hashable(v) <==>
            match v
            case PyNone => true
            case Bool(_) => true
            case Int(_) => true
            case Str(_) => true
            case List(_) => false
            case Dict(_) => false
            case Set(_) => false
            case Config(_, _) => true
  {
  }

  predicate Has(s: set<Value>, v: Value) {
    exists w :: w in s && PyEqual(w, v)
  }

  /** A set holds hashable values, no two of them equal. */
  ghost predicate IsPySet(s: set<Value>) {
    && (forall v :: v in s ==> Hashable(v))
    && (forall v, w :: v in s && w in s && PyEqual(v, w) ==> v == w)
  }

  /** `s.add(v)`: an element that is there already stays. */
  function Add(s: set<Value>, v: Value): set<Value> {
    if Has(s, v) then s else s + {v}
  }

  /** The elements that `s.update(args)` gets to before one raises. */
  function HashablePrefix(args: seq<Value>): seq<Value> {
    if args == [] || !Hashable(args[0]) then [] else [args[0]] + HashablePrefix(args[1..])
  }

  function AddAll(s: set<Value>, args: seq<Value>): set<Value> {
    if args == [] then s else Add(AddAll(s, Init(args)), Last(args))
  }

  lemma {:induction false} HashablePrefixIsPrefix(args: seq<Value>)
    ensures HashablePrefix(args) <= args
    ensures forall v :: v in HashablePrefix(args) ==> Hashable(v)
    ensures HashablePrefix(args) == args <==> (forall v :: v in args ==> Hashable(v))
    ensures |HashablePrefix(args)| < |args| ==> !Hashable(args[|HashablePrefix(args)|])
  {
    if args == [] {
    } else {
      assert args == [args[0]] + args[1..];
      HashablePrefixIsPrefix(args[1..]);
    }
  }

  /** Updating keeps what was there, takes nothing from elsewhere, leaves an equal of every argument,
      and leaves a set. */
  lemma {:induction false} AddAllMembers(s: set<Value>, args: seq<Value>)
    requires IsPySet(s) && forall v :: v in args ==> Hashable(v)
    ensures IsPySet(AddAll(s, args))
    ensures s <= AddAll(s, args)
    ensures forall v :: v in AddAll(s, args) ==> v in s || v in args
    ensures forall v :: Has(AddAll(s, args), v) <==> Has(s, v) || exists a :: a in args && PyEqual(a, v)
  {
    if args == [] {
    } else {
      var before, last := AddAll(s, Init(args)), Last(args);
      InitLast(args);
      AddAllMembers(s, Init(args));
      forall v
        ensures Has(Add(before, last), v) <==> Has(before, v) || PyEqual(last, v)
      {
        AddHas(before, last, v);
      }
    }
  }

  lemma AddHas(s: set<Value>, x: Value, v: Value)
    ensures Has(Add(s, x), v) <==> Has(s, v) || PyEqual(x, v)
  {
    if Has(s, x) && PyEqual(x, v) {
      var w :| w in s && PyEqual(w, x);
      assert PyEqual(w, v);
    }
    if Has(s, v) && !Has(s, x) {
      var w :| w in s && PyEqual(w, v);
      assert w in Add(s, x);
    }
    if !Has(s, x) {
      assert x in Add(s, x);
    }
  }

  lemma {:induction false} AddAllKeeps(s: set<Value>, args: seq<Value>)
    ensures s <= AddAll(s, args)
  {
    if args == [] {
    } else {
      AddAllKeeps(s, Init(args));
    }
  }

  /** On strings it is the union. */
  lemma {:induction false} AddAllStrings(s: set<Value>, args: seq<Value>)
    requires (forall v :: v in s ==> v.Str?) && (forall v :: v in args ==> v.Str?)
    ensures AddAll(s, args) == s + set a | a in args
  {
    if args == [] {
    } else {
      InitLast(args);
      AddAllStrings(s, Init(args));
    }
  }

  // ----- insertion-ordered dictionaries

  type OrderedDict<V> = seq<(string, V)>
  type OD = OrderedDict<Value>

  function Keys(d: OD): (ks: seq<string>)
    ensures |ks| == |d|
    ensures forall i :: 0 <= i < |d| ==> ks[i] == d[i].0
  {
    if d == [] then [] else [d[0].0] + Keys(d[1..])
  }

  predicate UniqueKeys(d: OD) {
    forall i, j :: 0 <= i < j < |d| ==> Keys(d)[i] != Keys(d)[j]
  }

  function Lookup(d: OD, k: string): Option<Value> {
    if d == [] then None else if d[0].0 == k then Some(d[0].1) else Lookup(d[1..], k)
  }

  /** `d[k] = v`: an existing key keeps its place, a new one goes last. */
  function Put<V>(d: OrderedDict<V>, k: string, v: V): OrderedDict<V> {
    if d == [] then [(k, v)]
    else if d[0].0 == k then [(k, v)] + d[1..]
    else [d[0]] + Put(d[1..], k, v)
  }

  /** `d.update(e)` */
  function Update<V>(d: OrderedDict<V>, e: OrderedDict<V>): OrderedDict<V>
    decreases |e|
  {
    if e == [] then d else Update(Put(d, e[0].0, e[0].1), e[1..])
  }

  lemma UniqueCons(k: string, v: Value, d: OD)
    requires UniqueKeys(d) && k !in Keys(d)
    ensures UniqueKeys([(k, v)] + d) && Keys([(k, v)] + d) == [k] + Keys(d)
  {
    assert ([(k, v)] + d)[1..] == d;
    assert forall i :: 0 <= i < |d| ==> Keys(d)[i] in Keys(d);
  }

  lemma UniqueTail(d: OD)
    requires UniqueKeys(d) && d != []
    ensures UniqueKeys(d[1..]) && d[0].0 !in Keys(d[1..])
  {
    var ks := Keys(d);
    assert Keys(d[1..]) == ks[1..];
    assert forall i :: 0 < i < |ks| ==> ks[0] != ks[i];
  }

  lemma {:induction false} LookupAt(d: OD, i: nat)
    requires UniqueKeys(d) && i < |d|
    ensures Lookup(d, d[i].0) == Some(d[i].1)
  {
    if i == 0 {
    } else {
      UniqueTail(d);
      assert d[i].0 == Keys(d[1..])[i - 1];
      LookupAt(d[1..], i - 1);
    }
  }

  lemma {:induction false} LookupAbsent(d: OD, k: string)
    ensures Lookup(d, k) == None <==> k !in Keys(d)
  {
    if d == [] {
    } else {
      LookupAbsent(d[1..], k);
    }
  }

  lemma {:induction false} LookupConcat(d: OD, e: OD, k: string)
    ensures Lookup(d + e, k) == if k in Keys(d) then Lookup(d, k) else Lookup(e, k)
  {
    if d == [] {
      assert d + e == e;
    } else {
      assert (d + e)[1..] == d[1..] + e;
      LookupConcat(d[1..], e, k);
    }
  }

  lemma {:induction false} LookupPut(d: OD, k: string, v: Value, k': string)
    ensures Lookup(Put(d, k, v), k') == if k' == k then Some(v) else Lookup(d, k')
  {
    if d == [] || d[0].0 == k {
    } else {
      LookupPut(d[1..], k, v, k');
    }
  }

  lemma {:induction false} PutFresh(d: OD, k: string, v: Value)
    requires k !in Keys(d)
    ensures Put(d, k, v) == d + [(k, v)]
  {
    if d == [] {
    } else {
      PutFresh(d[1..], k, v);
    }
  }

  /** A key outside `ks` is new to a dictionary whose keys are all in `ks`. */
  lemma PutNew(d: OD, ks: set<string>, k: string, v: Value)
    requires (forall k' :: k' in Keys(d) ==> k' in ks) && k !in ks
    ensures Put(d, k, v) == d + [(k, v)]
    ensures forall k' :: k' in Keys(Put(d, k, v)) ==> k' in ks + {k}
  {
    PutFresh(d, k, v);
    PutKeys(d, k, v);
  }

  lemma {:induction false} PutKeys(d: OD, k: string, v: Value)
    ensures Keys(Put(d, k, v)) == if k in Keys(d) then Keys(d) else Keys(d) + [k]
  {
    if d == [] {
    } else {
      if d[0].0 != k {
        PutKeys(d[1..], k, v);
        assert Put(d, k, v)[1..] == Put(d[1..], k, v);
      } else {
        assert Put(d, k, v)[1..] == d[1..];
      }
    }
  }

  lemma PutUnique(d: OD, k: string, v: Value)
    requires UniqueKeys(d)
    ensures UniqueKeys(Put(d, k, v))
  {
    PutKeys(d, k, v);
    assert forall i :: 0 <= i < |d| ==> Keys(d)[i] in Keys(d);
  }

  lemma {:induction false} UpdateUnique(d: OD, e: OD)
    requires UniqueKeys(d)
    ensures UniqueKeys(Update(d, e))
    decreases |e|
  {
    if e == [] {
    } else {
      PutUnique(d, e[0].0, e[0].1);
      UpdateUnique(Put(d, e[0].0, e[0].1), e[1..]);
    }
  }

  /** Updating with entries of a dictionary whose keys are all new appends them. */
  lemma {:induction false} UpdateFresh(d: OD, e: OD)
    requires UniqueKeys(e)
    requires forall k :: k in Keys(e) ==> k !in Keys(d)
    ensures Update(d, e) == d + e
    decreases |e|
  {
    if e == [] {
    } else {
      var k, v := e[0].0, e[0].1;
      assert Keys(e)[0] == k;
      UniqueTail(e);
      PutFresh(d, k, v);
      PutKeys(d, k, v);
      assert Keys(e) == [k] + Keys(e[1..]);
      UpdateFresh(d + [(k, v)], e[1..]);
      Shift(d, e);
    }
  }

  lemma {:induction false} LookupUpdate(d: OD, e: OD, k: string)
    requires UniqueKeys(e)
    ensures Lookup(Update(d, e), k) == if k in Keys(e) then Lookup(e, k) else Lookup(d, k)
    decreases |e|
  {
    if e == [] {
    } else {
      UniqueTail(e);
      LookupUpdate(Put(d, e[0].0, e[0].1), e[1..], k);
      LookupPut(d, e[0].0, e[0].1, k);
    }
  }

  lemma {:induction false} UpdateKeys(d: OD, e: OD, k: string)
    ensures k in Keys(Update(d, e)) <==> k in Keys(d) || k in Keys(e)
    decreases |e|
  {
    if e == [] {
    } else {
      PutKeys(d, e[0].0, e[0].1);
      UpdateKeys(Put(d, e[0].0, e[0].1), e[1..], k);
    }
  }
}
