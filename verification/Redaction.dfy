/** Log redaction (`packages/shared/src/redaction.ts`): a depth-limited walk over a value graph that may
    be cyclic or shared, with one `seen` set for the whole walk. */
module Redaction {
  import opened Text

  /** A value: text, another primitive, an Error, or a reference to an array or plain object. */
  datatype Value = Str(text: string) | Prim(token: int) | Error(name: string, message: string, stack: string)
    | Ref(id: nat)

  datatype Node = ArrayNode(items: seq<Value>) | ObjectNode(entries: seq<(string, Value)>)

  type Heap = map<nat, Node>

  /** The redacted tree. An expanded object remembers which object it came from. */
  datatype Out =
    | OStr(text: string)
    | OPrim(token: int)
    | OError(name: string, message: string, stack: Option<string>)
    | OArray(items: seq<Out>)
    | OObject(origin: nat, entries: seq<(string, Out)>)

  const REDACTED := "[REDACTED]"
  const CIRCULAR := "[Circular]"
  const TRUNCATED := "[Truncated]"

  /** The text redaction and the test for sensitive keys, both regular expressions in the source. */
  datatype Rules = Rules(redactString: string -> string, sensitive: string -> bool)

  // ---------------------------------------------------------------- the walk

  /** `redactValue`, with the `seen` set passed in and out. A reference outside the heap stands for no
      JavaScript value; it is passed through. */
  function RedactValue(r: Rules, h: Heap, v: Value, seen: set<nat>, depth: nat): (Out, set<nat>)
    requires depth <= 7
    decreases 8 - depth, 0
  {
    if depth > 6 then (OStr(TRUNCATED), seen)
    else
      match v
      case Str(s) => (OStr(r.redactString(s)), seen)
      case Error(name, message, stack) =>
        (OError(name, r.redactString(message), if stack != "" then Some(r.redactString(stack)) else None), seen)
      case Prim(p) => (OPrim(p), seen)
      case Ref(id) =>
        if id !in h then (OPrim(0), seen)
        else
          match h[id]
          case ArrayNode(items) =>
            var (outs, seen') := RedactItems(r, h, items, seen, depth + 1);
            (OArray(outs), seen')
          case ObjectNode(entries) =>
            if id in seen then (OStr(CIRCULAR), seen)
            else
              var (outs, seen') := RedactEntries(r, h, entries, seen + {id}, depth + 1);
              (OObject(id, outs), seen')
  }

  function RedactItems(r: Rules, h: Heap, items: seq<Value>, seen: set<nat>, depth: nat): (seq<Out>, set<nat>)
    requires depth <= 7
    decreases 8 - depth, 1 + |items|
  {
    if items == [] then ([], seen)
    else
      var (out, seen') := RedactValue(r, h, items[0], seen, depth);
      var (outs, seen'') := RedactItems(r, h, items[1..], seen', depth);
      ([out] + outs, seen'')
  }

  function RedactEntries(r: Rules, h: Heap, entries: seq<(string, Value)>, seen: set<nat>,
      depth: nat): (seq<(string, Out)>, set<nat>)
    requires depth <= 7
    decreases 8 - depth, 1 + |entries|
  {
    if entries == [] then ([], seen)
    else
      var (out, seen') := if r.sensitive(entries[0].0) then (OStr(REDACTED), seen)
                          else RedactValue(r, h, entries[0].1, seen, depth);
      var (outs, seen'') := RedactEntries(r, h, entries[1..], seen', depth);
      ([(entries[0].0, out)] + outs, seen'')
  }

  /** `redactLogData`. */
  function RedactLogData(r: Rules, h: Heap, v: Value): Out {
    RedactValue(r, h, v, {}, 0).0
  }

  // ---------------------------------------------------------------- the walk as written, on one shared set

  class SeenSet {
    var ids: set<nat>

    constructor ()
      ensures ids == {}
    {
      ids := {};
    }
  }

  method RedactValueInto(r: Rules, h: Heap, v: Value, seen: SeenSet, depth: nat) returns (out: Out)
    requires depth <= 7
    modifies seen
    ensures (out, seen.ids) == RedactValue(r, h, v, old(seen.ids), depth)
    decreases 8 - depth, 0
  {
    if depth > 6 { return OStr(TRUNCATED); }
    match v {
      case Str(s) => return OStr(r.redactString(s));
      case Error(name, message, stack) =>
        return OError(name, r.redactString(message), if stack != "" then Some(r.redactString(stack)) else None);
      case Prim(p) => return OPrim(p);
      case Ref(id) =>
        if id !in h { return OPrim(0); }
        match h[id] {
          case ArrayNode(items) =>
            var outs := RedactItemsInto(r, h, items, seen, depth + 1);
            return OArray(outs);
          case ObjectNode(entries) =>
            if id in seen.ids { return OStr(CIRCULAR); }
            seen.ids := seen.ids + {id};
            var outs := RedactEntriesInto(r, h, entries, seen, depth + 1);
            return OObject(id, outs);
        }
    }
  }

  /** The items of an array, in order. */
  method RedactItemsInto(r: Rules, h: Heap, items: seq<Value>, seen: SeenSet, depth: nat) returns (outs: seq<Out>)
    requires depth <= 7
    modifies seen
    ensures (outs, seen.ids) == RedactItems(r, h, items, old(seen.ids), depth)
    decreases 8 - depth, 1
  {
    hide RedactValue;
    outs := [];
    ghost var all := RedactItems(r, h, items, seen.ids, depth);
    assert items[0..] == items && outs + all.0 == all.0;
    for k := 0 to |items|
      invariant var rest := RedactItems(r, h, items[k..], seen.ids, depth); all == (outs + rest.0, rest.1)
    {
      assert items[k..][1..] == items[k + 1..];
      var item := RedactValueInto(r, h, items[k], seen, depth);
      ghost var rest := RedactItems(r, h, items[k + 1..], seen.ids, depth);
      assert outs + ([item] + rest.0) == (outs + [item]) + rest.0;
      outs := outs + [item];
    }
    assert items[|items|..] == [] && outs + [] == outs;
  }

  /** The entries of an object, in order; sensitive ones are not looked at. */
  method RedactEntriesInto(r: Rules, h: Heap, entries: seq<(string, Value)>, seen: SeenSet, depth: nat)
    returns (outs: seq<(string, Out)>)
    requires depth <= 7
    modifies seen
    ensures (outs, seen.ids) == RedactEntries(r, h, entries, old(seen.ids), depth)
    decreases 8 - depth, 1
  {
    hide RedactValue, RedactEntries;
    outs := [];
    ghost var all := RedactEntries(r, h, entries, seen.ids, depth);
    assert entries[0..] == entries && outs + all.0 == all.0;
    for k := 0 to |entries|
      invariant var rest := RedactEntries(r, h, entries[k..], seen.ids, depth); all == (outs + rest.0, rest.1)
    {
      assert entries[k..][1..] == entries[k + 1..];
      EntriesUnfold(r, h, entries[k..], seen.ids, depth);
      var (key, entry) := entries[k];
      var value := OStr(REDACTED);
      if !r.sensitive(key) {
        value := RedactValueInto(r, h, entry, seen, depth);
      }
      ghost var rest := RedactEntries(r, h, entries[k + 1..], seen.ids, depth);
      assert outs + ([(key, value)] + rest.0) == (outs + [(key, value)]) + rest.0;
      outs := outs + [(key, value)];
    }
    EntriesUnfold(r, h, entries[|entries|..], seen.ids, depth);
    assert outs + [] == outs;
  }

  lemma EntriesUnfold(r: Rules, h: Heap, entries: seq<(string, Value)>, seen: set<nat>, depth: nat)
    requires depth <= 7
    ensures RedactEntries(r, h, entries, seen, depth) ==
            if entries == [] then ([], seen)
            else
              var (out, seen') := if r.sensitive(entries[0].0) then (OStr(REDACTED), seen)
                                  else RedactValue(r, h, entries[0].1, seen, depth);
              var (outs, seen'') := RedactEntries(r, h, entries[1..], seen', depth);
              ([(entries[0].0, out)] + outs, seen'')
  {}

  // ---------------------------------------------------------------- every object at most once

  /** The objects expanded in a tree, with multiplicity. */
  function Origins(o: Out): multiset<nat>
    decreases o, 0
  {
    match o
    case OArray(items) => OriginsOfItems(items)
    case OObject(id, entries) => multiset{id} + OriginsOfEntries(entries)
    case _ => multiset{}
  }

  function OriginsOfItems(items: seq<Out>): multiset<nat>
    decreases items, 0
  {
    if items == [] then multiset{} else Origins(items[0]) + OriginsOfItems(items[1..])
  }

  function OriginsOfEntries(entries: seq<(string, Out)>): multiset<nat>
    decreases entries, 0
  {
    if entries == [] then multiset{}
    else
      assert entries[0].1 < entries[0];
      Origins(entries[0].1) + OriginsOfEntries(entries[1..])
  }

  lemma Difference(a: set<nat>, b: set<nat>, c: set<nat>)
    requires a <= b <= c
    ensures multiset(c - a) == multiset(b - a) + multiset(c - b)
  {}

  /** The objects expanded are exactly those newly seen, each of them once. */
  lemma {:induction false} EachObjectOnce(r: Rules, h: Heap, v: Value, seen: set<nat>, depth: nat)
    requires depth <= 7
    ensures var (out, seen') := RedactValue(r, h, v, seen, depth);
            seen <= seen' && Origins(out) == multiset(seen' - seen)
    decreases 8 - depth, 0
  {
    if depth <= 6 && v.Ref? && v.id in h {
      match h[v.id] {
        case ArrayNode(items) =>
          EachObjectOnceInItems(r, h, items, seen, depth + 1);
        case ObjectNode(entries) =>
          if v.id !in seen {
            EachObjectOnceInEntries(r, h, entries, seen + {v.id}, depth + 1);
            Difference(seen, seen + {v.id}, RedactEntries(r, h, entries, seen + {v.id}, depth + 1).1);
            assert (seen + {v.id}) - seen == {v.id};
          }
      }
    }
    var (out, seen') := RedactValue(r, h, v, seen, depth);
    assert seen - seen == {};
  }

  lemma {:induction false} EachObjectOnceInItems(r: Rules, h: Heap, items: seq<Value>, seen: set<nat>, depth: nat)
    requires depth <= 7
    ensures var (outs, seen') := RedactItems(r, h, items, seen, depth);
            seen <= seen' && OriginsOfItems(outs) == multiset(seen' - seen)
    decreases 8 - depth, 1 + |items|
  {
    assert seen - seen == {};
    if items != [] {
      EachObjectOnce(r, h, items[0], seen, depth);
      var (out, seen') := RedactValue(r, h, items[0], seen, depth);
      EachObjectOnceInItems(r, h, items[1..], seen', depth);
      var (outs, seen'') := RedactItems(r, h, items[1..], seen', depth);
      Difference(seen, seen', seen'');
      assert ([out] + outs)[1..] == outs;
    }
  }

  lemma {:induction false} EachObjectOnceInEntries(r: Rules, h: Heap, entries: seq<(string, Value)>,
      seen: set<nat>, depth: nat)
    requires depth <= 7
    ensures var (outs, seen') := RedactEntries(r, h, entries, seen, depth);
            seen <= seen' && OriginsOfEntries(outs) == multiset(seen' - seen)
    decreases 8 - depth, 1 + |entries|
  {
    assert seen - seen == {};
    if entries != [] {
      EachObjectOnce(r, h, entries[0].1, seen, depth);
      var (out, seen') := if r.sensitive(entries[0].0) then (OStr(REDACTED), seen)
                          else RedactValue(r, h, entries[0].1, seen, depth);
      EachObjectOnceInEntries(r, h, entries[1..], seen', depth);
      var (outs, seen'') := RedactEntries(r, h, entries[1..], seen', depth);
      Difference(seen, seen', seen'');
      assert ([(entries[0].0, out)] + outs)[1..] == outs;
    }
  }

  /** In a whole log entry no object is expanded twice. */
  lemma NoObjectTwice(r: Rules, h: Heap, v: Value, id: nat)
    ensures Origins(RedactLogData(r, h, v))[id] <= 1
  {
    EachObjectOnce(r, h, v, {}, 0);
  }

  // ---------------------------------------------------------------- shape and secrecy of the tree

  function KeysOf<T>(entries: seq<(string, T)>): seq<string> {
    if entries == [] then [] else [entries[0].0] + KeysOf(entries[1..])
  }

  /** A tree of at most `height` nested containers in which every expanded object shows all its own
      keys, in order, and `[REDACTED]` under every sensitive one. */
  ghost predicate Sound(r: Rules, h: Heap, o: Out, height: nat)
    decreases height
  {
    match o
    case OArray(items) => height > 0 && forall i :: 0 <= i < |items| ==> Sound(r, h, items[i], height - 1)
    case OObject(id, entries) =>
      && height > 0 && id in h && h[id].ObjectNode?
      && KeysOf(entries) == KeysOf(h[id].entries)
      && forall i :: 0 <= i < |entries| ==>
           if r.sensitive(entries[i].0) then entries[i].1 == OStr(REDACTED) else Sound(r, h, entries[i].1, height - 1)
    case _ => true
  }

  lemma {:induction false} OutputIsSound(r: Rules, h: Heap, v: Value, seen: set<nat>, depth: nat)
    requires depth <= 7
    ensures Sound(r, h, RedactValue(r, h, v, seen, depth).0, 7 - depth)
    decreases 8 - depth, 0
  {
    if depth <= 6 && v.Ref? && v.id in h {
      match h[v.id] {
        case ArrayNode(items) => ItemsAreSound(r, h, items, seen, depth + 1);
        case ObjectNode(entries) => EntriesAreSound(r, h, entries, seen + {v.id}, depth + 1);
      }
    }
  }

  lemma {:induction false} ItemsAreSound(r: Rules, h: Heap, items: seq<Value>, seen: set<nat>, depth: nat)
    requires depth <= 7
    ensures var outs := RedactItems(r, h, items, seen, depth).0;
            |outs| == |items| && forall i :: 0 <= i < |outs| ==> Sound(r, h, outs[i], 7 - depth)
    decreases 8 - depth, 1 + |items|
  {
    hide Sound;
    if items != [] {
      OutputIsSound(r, h, items[0], seen, depth);
      ItemsAreSound(r, h, items[1..], RedactValue(r, h, items[0], seen, depth).1, depth);
    }
  }

  lemma {:induction false} EntriesAreSound(r: Rules, h: Heap, entries: seq<(string, Value)>, seen: set<nat>, depth: nat)
    requires depth <= 7
    ensures var outs := RedactEntries(r, h, entries, seen, depth).0;
            && KeysOf(outs) == KeysOf(entries)
            && forall i :: 0 <= i < |outs| ==>
                 if r.sensitive(outs[i].0) then outs[i].1 == OStr(REDACTED) else Sound(r, h, outs[i].1, 7 - depth)
    decreases 8 - depth, 1 + |entries|
  {
    hide Sound;
    if entries != [] {
      var (out, seen') := if r.sensitive(entries[0].0) then (OStr(REDACTED), seen)
                          else RedactValue(r, h, entries[0].1, seen, depth);
      OutputIsSound(r, h, entries[0].1, seen, depth);
      EntriesAreSound(r, h, entries[1..], seen', depth);
      var outs := RedactEntries(r, h, entries[1..], seen', depth).0;
      assert ([(entries[0].0, out)] + outs)[1..] == outs;
    }
  }

  /** A log entry is at most seven containers deep, keeps the keys of every object it expands, and
      shows nothing but `[REDACTED]` under a sensitive key, at every level. */
  lemma LogEntriesAreSound(r: Rules, h: Heap, v: Value)
    ensures Sound(r, h, RedactLogData(r, h, v), 7)
  {
    OutputIsSound(r, h, v, {}, 0);
  }

  // ---------------------------------------------------------------- nothing else is lost

  /** The tree shows the value: text redacted, primitives as they are, arrays and objects entry by
      entry. Exceptions are the depth limit, sensitive keys, and references back to objects of `expanded`. */
  ghost predicate Mirrors(r: Rules, h: Heap, v: Value, o: Out, depth: nat, expanded: set<nat>)
    requires depth <= 7
    decreases 8 - depth, 0
  {
    if depth > 6 then o == OStr(TRUNCATED)
    else
      match v
      case Str(s) => o == OStr(r.redactString(s))
      case Prim(p) => o == OPrim(p)
      case Error(name, message, stack) =>
        o == OError(name, r.redactString(message), if stack == "" then None else Some(r.redactString(stack)))
      case Ref(id) =>
        id in h ==>
          match h[id]
          case ArrayNode(items) =>
            && o.OArray? && |o.items| == |items|
            && forall i :: 0 <= i < |items| ==> Mirrors(r, h, items[i], o.items[i], depth + 1, expanded)
          case ObjectNode(entries) =>
            && id in expanded
            && (o == OStr(CIRCULAR) ||
                (o.OObject? && o.origin == id && MirrorsEntries(r, h, entries, o.entries, depth + 1, expanded)))
  }

  ghost predicate MirrorsEntries(r: Rules, h: Heap, entries: seq<(string, Value)>, outs: seq<(string, Out)>,
      depth: nat, expanded: set<nat>)
    requires depth <= 7
    decreases 8 - depth, 1
  {
    && |outs| == |entries|
    && forall i :: 0 <= i < |entries| ==>
         && outs[i].0 == entries[i].0
         && if r.sensitive(entries[i].0) then outs[i].1 == OStr(REDACTED)
            else Mirrors(r, h, entries[i].1, outs[i].1, depth, expanded)
  }

  lemma {:induction false} OutputMirrors(r: Rules, h: Heap, v: Value, seen: set<nat>, depth: nat, expanded: set<nat>)
    requires depth <= 7 && RedactValue(r, h, v, seen, depth).1 <= expanded
    ensures Mirrors(r, h, v, RedactValue(r, h, v, seen, depth).0, depth, expanded)
    decreases 8 - depth, 0
  {
    if depth <= 6 && v.Ref? && v.id in h {
      match h[v.id] {
        case ArrayNode(items) => ItemsMirror(r, h, items, seen, depth + 1, expanded);
        case ObjectNode(entries) =>
          if v.id !in seen {
            EachObjectOnceInEntries(r, h, entries, seen + {v.id}, depth + 1);
            EntriesMirror(r, h, entries, seen + {v.id}, depth + 1, expanded);
          }
      }
    }
  }

  lemma {:induction false} ItemsMirror(r: Rules, h: Heap, items: seq<Value>, seen: set<nat>, depth: nat,
      expanded: set<nat>)
    requires depth <= 7 && RedactItems(r, h, items, seen, depth).1 <= expanded
    ensures var outs := RedactItems(r, h, items, seen, depth).0;
            |outs| == |items| && forall i :: 0 <= i < |items| ==> Mirrors(r, h, items[i], outs[i], depth, expanded)
    decreases 8 - depth, 1 + |items|
  {
    hide Mirrors;
    if items != [] {
      var seen' := RedactValue(r, h, items[0], seen, depth).1;
      EachObjectOnceInItems(r, h, items[1..], seen', depth);
      OutputMirrors(r, h, items[0], seen, depth, expanded);
      ItemsMirror(r, h, items[1..], seen', depth, expanded);
    }
  }

  lemma {:induction false} EntriesMirror(r: Rules, h: Heap, entries: seq<(string, Value)>, seen: set<nat>,
      depth: nat, expanded: set<nat>)
    requires depth <= 7 && RedactEntries(r, h, entries, seen, depth).1 <= expanded
    ensures MirrorsEntries(r, h, entries, RedactEntries(r, h, entries, seen, depth).0, depth, expanded)
    decreases 8 - depth, 1 + |entries|
  {
    hide Mirrors;
    if entries != [] {
      var seen' := if r.sensitive(entries[0].0) then seen else RedactValue(r, h, entries[0].1, seen, depth).1;
      EachObjectOnceInEntries(r, h, entries[1..], seen', depth);
      if !r.sensitive(entries[0].0) { OutputMirrors(r, h, entries[0].1, seen, depth, expanded); }
      EntriesMirror(r, h, entries[1..], seen', depth, expanded);
    }
  }

  /** A log entry shows its value up to the depth limit and sensitive keys: a `[Circular]` mark only
      stands for an object that the same entry expands in exactly one place, where the depth limit applies. */
  lemma LogEntriesMirrorTheirValue(r: Rules, h: Heap, v: Value) returns (expanded: set<nat>)
    ensures Mirrors(r, h, v, RedactLogData(r, h, v), 0, expanded)
    ensures Origins(RedactLogData(r, h, v)) == multiset(expanded)
  {
    expanded := RedactValue(r, h, v, {}, 0).1;
    EachObjectOnce(r, h, v, {}, 0);
    assert expanded - {} == expanded;
    OutputMirrors(r, h, v, {}, 0, expanded);
  }

  lemma {:induction false} EntriesBeyondTheLimit(r: Rules, h: Heap, entries: seq<(string, Value)>, seen: set<nat>)
    ensures var (outs, seen') := RedactEntries(r, h, entries, seen, 7);
            && seen' == seen && |outs| == |entries|
            && forall i :: 0 <= i < |entries| ==>
                 outs[i] == (entries[i].0, OStr(if r.sensitive(entries[i].0) then REDACTED else TRUNCATED))
  {
    if entries != [] { EntriesBeyondTheLimit(r, h, entries[1..], seen); }
  }

  /** An object that is first met at the last level is expanded without any of its values, and every later
      occurrence, however shallow, is only marked. */
  lemma FirstMetAtTheLimit(r: Rules, h: Heap, id: nat, seen: set<nat>, later: set<nat>, depth: nat)
    requires id in h && h[id].ObjectNode? && id !in seen && depth <= 6
    ensures var (out, seen') := RedactValue(r, h, Ref(id), seen, 6);
            && out.OObject? && |out.entries| == |h[id].entries|
            && (forall i :: 0 <= i < |out.entries| ==>
                  out.entries[i].1 == OStr(if r.sensitive(out.entries[i].0) then REDACTED else TRUNCATED))
            && (seen' <= later ==> RedactValue(r, h, Ref(id), later, depth) == (OStr(CIRCULAR), later))
  {
    EntriesBeyondTheLimit(r, h, h[id].entries, seen + {id});
  }

  function Pair(deep: Value, shallow: Value): Node {
    ObjectNode([("a", deep), ("b", shallow)])
  }

  function Link(next: nat): Node {
    ObjectNode([("a", Ref(next))])
  }

  function Nested(deep: Out): Out {
    OObject(1, [("a", OObject(2, [("a", OObject(3, [("a", OObject(4, [("a", OObject(5, [("a", deep)]))]))]))]))])
  }

  lemma LinkIs(r: Rules, h: Heap, id: nat, seen: set<nat>, depth: nat)
    requires depth <= 6 && id in h && h[id] == Link(id + 1) && id !in seen && !r.sensitive("a")
    ensures var (out, seen') := RedactValue(r, h, Ref(id + 1), seen + {id}, depth + 1);
            RedactValue(r, h, Ref(id), seen, depth) == (OObject(id, [("a", out)]), seen')
  {
    var entries := h[id].entries;
    assert entries[1..] == [];
    EntriesUnfold(r, h, entries, seen + {id}, depth + 1);
    var (out, seen') := RedactValue(r, h, Ref(id + 1), seen + {id}, depth + 1);
    assert [("a", out)] + [] == [("a", out)];
  }

  /** The object 6 stands directly under `b`; its text is lost, because the walk meets it first at the
      end of the chain under `a`. */
  lemma ShallowObjectIsLost(r: Rules, h: Heap, text: string)
    requires h == map[0 := Pair(Ref(1), Ref(6)), 1 := Link(2), 2 := Link(3), 3 := Link(4), 4 := Link(5), 5 := Link(6),
                      6 := ObjectNode([("x", Str(text))])]
    requires !r.sensitive("a") && !r.sensitive("b") && !r.sensitive("x")
    ensures RedactLogData(r, h, Ref(0)) ==
            OObject(0, [("a", Nested(OObject(6, [("x", OStr(TRUNCATED))]))), ("b", OStr(CIRCULAR))])
  {
    hide RedactValue, RedactEntries;
    LinkIs(r, h, 1, {0}, 1);
    LinkIs(r, h, 2, {0} + {1}, 2);
    LinkIs(r, h, 3, {0} + {1} + {2}, 3);
    LinkIs(r, h, 4, {0} + {1} + {2} + {3}, 4);
    LinkIs(r, h, 5, {0} + {1} + {2} + {3} + {4}, 5);
    var before := {0} + {1} + {2} + {3} + {4} + {5};
    FirstMetAtTheLimit(r, h, 6, before, before + {6}, 1);
    LastIs(r, h, before);
    RootIs(r, h);
  }

  lemma LastIs(r: Rules, h: Heap, seen: set<nat>)
    requires 6 in h && h[6].ObjectNode? && |h[6].entries| == 1 && h[6].entries[0].0 == "x" && 6 !in seen
    requires !r.sensitive("x")
    ensures RedactValue(r, h, Ref(6), seen, 6) == (OObject(6, [("x", OStr(TRUNCATED))]), seen + {6})
  {
    EntriesBeyondTheLimit(r, h, h[6].entries, seen + {6});
    var outs := RedactEntries(r, h, h[6].entries, seen + {6}, 7).0;
    assert outs == [("x", OStr(TRUNCATED))];
  }

  lemma RootIs(r: Rules, h: Heap)
    requires 0 in h && h[0] == Pair(Ref(1), Ref(6)) && !r.sensitive("a") && !r.sensitive("b")
    ensures var (deep, seen) := RedactValue(r, h, Ref(1), {0}, 1);
            RedactLogData(r, h, Ref(0)) ==
            OObject(0, [("a", deep), ("b", RedactValue(r, h, Ref(6), seen, 1).0)])
  {
    var entries := h[0].entries;
    assert {} + {0} == {0};
    assert entries[1..] == [("b", Ref(6))] && entries[1..][1..] == [];
    EntriesUnfold(r, h, entries, {0}, 1);
    EntriesUnfold(r, h, entries[1..], RedactValue(r, h, Ref(1), {0}, 1).1, 1);
    EntriesUnfold(r, h, [], RedactValue(r, h, Ref(6), RedactValue(r, h, Ref(1), {0}, 1).1, 1).1, 1);
  }

  // ---------------------------------------------------------------- secrets have no influence

  predicate RefsIn(v: Value, ids: set<nat>) {
    v.Ref? ==> v.id in ids
  }

  /** The heaps agree on `ids` except for what is stored under sensitive keys, and references outside
      sensitive entries stay in `ids`. Nothing is said about other nodes. */
  ghost predicate SameVisible(r: Rules, h1: Heap, h2: Heap, ids: set<nat>) {
    forall id :: id in ids ==>
      && (id in h1 <==> id in h2)
      && (id in h1 ==>
            match h1[id]
            case ArrayNode(items) => h2[id] == h1[id] && forall i :: 0 <= i < |items| ==> RefsIn(items[i], ids)
            case ObjectNode(entries) => h2[id].ObjectNode? && SameEntries(r, entries, h2[id].entries, ids))
  }

  ghost predicate SameEntries(r: Rules, e1: seq<(string, Value)>, e2: seq<(string, Value)>, ids: set<nat>) {
    && |e1| == |e2|
    && forall i :: 0 <= i < |e1| ==>
         && e1[i].0 == e2[i].0
         && (r.sensitive(e1[i].0) || (e1[i].1 == e2[i].1 && RefsIn(e1[i].1, ids)))
  }

  lemma {:induction false} SecretsHaveNoInfluence(r: Rules, h1: Heap, h2: Heap, ids: set<nat>, v: Value,
      seen: set<nat>, depth: nat)
    requires depth <= 7 && SameVisible(r, h1, h2, ids) && RefsIn(v, ids)
    ensures RedactValue(r, h1, v, seen, depth) == RedactValue(r, h2, v, seen, depth)
    decreases 8 - depth, 0
  {
    if depth <= 6 && v.Ref? && v.id in h1 {
      match h1[v.id] {
        case ArrayNode(items) => SecretsInItems(r, h1, h2, ids, items, seen, depth + 1);
        case ObjectNode(entries) =>
          SecretsInEntries(r, h1, h2, ids, entries, h2[v.id].entries, seen + {v.id}, depth + 1);
      }
    }
  }

  lemma {:induction false} SecretsInItems(r: Rules, h1: Heap, h2: Heap, ids: set<nat>, items: seq<Value>,
      seen: set<nat>, depth: nat)
    requires depth <= 7 && SameVisible(r, h1, h2, ids) && forall i :: 0 <= i < |items| ==> RefsIn(items[i], ids)
    ensures RedactItems(r, h1, items, seen, depth) == RedactItems(r, h2, items, seen, depth)
    decreases 8 - depth, 1 + |items|
  {
    hide SameVisible;
    if items != [] {
      SecretsHaveNoInfluence(r, h1, h2, ids, items[0], seen, depth);
      SecretsInItems(r, h1, h2, ids, items[1..], RedactValue(r, h1, items[0], seen, depth).1, depth);
    }
  }

  lemma {:induction false} SecretsInEntries(r: Rules, h1: Heap, h2: Heap, ids: set<nat>, e1: seq<(string, Value)>,
      e2: seq<(string, Value)>, seen: set<nat>, depth: nat)
    requires depth <= 7 && SameVisible(r, h1, h2, ids) && SameEntries(r, e1, e2, ids)
    ensures RedactEntries(r, h1, e1, seen, depth) == RedactEntries(r, h2, e2, seen, depth)
    decreases 8 - depth, 1 + |e1|
  {
    hide SameVisible;
    if e1 != [] {
      if !r.sensitive(e1[0].0) { SecretsHaveNoInfluence(r, h1, h2, ids, e1[0].1, seen, depth); }
      var seen' := if r.sensitive(e1[0].0) then seen else RedactValue(r, h1, e1[0].1, seen, depth).1;
      SecretsInEntries(r, h1, h2, ids, e1[1..], e2[1..], seen', depth);
    }
  }

  /** What is reached through sensitive keys only, with everything below it, has no influence on the log:
      the heaps may differ there in any way. */
  lemma LogsDoNotDependOnSecrets(r: Rules, h1: Heap, h2: Heap, ids: set<nat>, v: Value)
    requires SameVisible(r, h1, h2, ids) && RefsIn(v, ids)
    ensures RedactLogData(r, h1, v) == RedactLogData(r, h2, v)
  {
    SecretsHaveNoInfluence(r, h1, h2, ids, v, {}, 0);
  }

  /** An object under a sensitive key may change altogether. */
  lemma SecretObjectsAreHidden(r: Rules, secret1: Node, secret2: Node)
    requires r.sensitive("password")
    ensures var root := ObjectNode([("password", Ref(1))]);
            RedactLogData(r, map[0 := root, 1 := secret1], Ref(0)) ==
            RedactLogData(r, map[0 := root, 1 := secret2], Ref(0))
  {
    var root := ObjectNode([("password", Ref(1))]);
    LogsDoNotDependOnSecrets(r, map[0 := root, 1 := secret1], map[0 := root, 1 := secret2], {0}, Ref(0));
  }

  /** An object that also stands under another key is shown there. */
  lemma SharedSecretsAreShown(r: Rules, h: Heap, text: string)
    requires h == map[0 := ObjectNode([("password", Ref(1)), ("other", Ref(1))]), 1 := ObjectNode([("x", Str(text))])]
    requires r.sensitive("password") && !r.sensitive("other") && !r.sensitive("x")
    ensures RedactLogData(r, h, Ref(0)) ==
            OObject(0, [("password", OStr(REDACTED)), ("other", OObject(1, [("x", OStr(r.redactString(text)))]))])
  {
    var entries, inner := h[0].entries, h[1].entries;
    assert {} + {0} == {0};
    assert entries[1..] == [("other", Ref(1))] && entries[1..][1..] == [] && inner[1..] == [];
    EntriesUnfold(r, h, entries, {0}, 1);
    EntriesUnfold(r, h, entries[1..], {0}, 1);
    EntriesUnfold(r, h, inner, {0} + {1}, 2);
    EntriesUnfold(r, h, [], {0} + {1}, 2);
    var shown := OObject(1, [("x", OStr(r.redactString(text)))]);
    assert RedactEntries(r, h, inner, {0} + {1}, 2).0 == shown.entries;
    assert RedactValue(r, h, Ref(1), {0}, 1) == (shown, {0} + {1});
    EntriesUnfold(r, h, [], {0} + {1}, 1);
    assert RedactEntries(r, h, entries[1..], {0}, 1).0 == [("other", shown)];
  }
}
