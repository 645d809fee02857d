/** The published collection contract carries exactly the schemas its paths reach. */
module ContractClosure {
  import opened Wrappers
  import opened JsonValues
  import opened Text

  type Definitions = map<string, Json>

  const REF := "$ref"
  const PREFIX := "#/components/schemas/"

  /** What follows the last slash. */
  function AfterLastSlash(s: string): string {
    if s == [] then ""
    else if s[|s| - 1] == '/' then ""
    else AfterLastSlash(s[..|s| - 1]) + [s[|s| - 1]]
  }

  /** How an object refers to a schema: not at all, by name, or with a `$ref` that is no string. */
  datatype Reference = NoReference | Names(name: string) | NotText

  function ReferenceOf(fields: seq<Member>): Reference {
    var ref := Field(fields, REF);
    if ref.None? then NoReference
    else if !ref.value.Str? then NotText
    else if StartsWith(ref.value.text, PREFIX) then Names(AfterLastSlash(ref.value.text))
    else NoReference
  }

  // ---------------------------------------------------------------- what is reachable

  /** Schemas that `value` names directly, at any depth of its own text. */
  function Mentions(value: Json): set<string> {
    match value
    case Obj(fields) =>
      (match ReferenceOf(fields) case Names(name) => {name} case _ => {}) + FieldMentions(fields)
    case Arr(items) => ItemMentions(items)
    case _ => {}
  }

  function FieldMentions(fields: seq<Member>): set<string> {
    if fields == [] then {} else Mentions(fields[0].value) + FieldMentions(fields[1..])
  }

  function ItemMentions(items: seq<Json>): set<string> {
    if items == [] then {} else Mentions(items[0]) + ItemMentions(items[1..])
  }

  /** No object in `value` has a `$ref` that is not a string. */
  predicate Readable(value: Json) {
    match value
    case Obj(fields) => !ReferenceOf(fields).NotText? && FieldsReadable(fields)
    case Arr(items) => ItemsReadable(items)
    case _ => true
  }

  predicate FieldsReadable(fields: seq<Member>) {
    fields == [] || (Readable(fields[0].value) && FieldsReadable(fields[1..]))
  }

  predicate ItemsReadable(items: seq<Json>) {
    items == [] || (Readable(items[0]) && ItemsReadable(items[1..]))
  }

  /** `names` are defined and readable, and name nothing outside themselves. */
  ghost predicate ClosedUnder(defs: Definitions, names: set<string>) {
    forall n :: n in names ==> n in defs && Readable(defs[n]) && Mentions(defs[n]) <= names
  }

  /** A closed set that holds everything `value` names. */
  ghost predicate Covers(defs: Definitions, value: Json, names: set<string>) {
    Readable(value) && Mentions(value) <= names && ClosedUnder(defs, names)
  }

  // ---------------------------------------------------------------- the walk

  lemma SmallerRest(defs: Definitions, a: set<string>, b: set<string>)
    requires a <= b
    ensures |defs.Keys - b| <= |defs.Keys - a|
  {
    SubsetSize(defs.Keys - b, defs.Keys - a);
  }

  lemma {:induction false} SubsetSize<T(!new)>(a: set<T>, b: set<T>)
    requires a <= b
    ensures |a| <= |b|
    decreases |a|
  {
    if a != {} {
      var x :| x in a;
      SubsetSize(a - {x}, b - {x});
    }
  }

  lemma SmallerWithout(defs: Definitions, needed: set<string>, name: string)
    requires name in defs && name !in needed
    ensures |defs.Keys - (needed + {name})| < |defs.Keys - needed|
  {
    assert defs.Keys - (needed + {name}) == (defs.Keys - needed) - {name};
  }

  /** `references`: None when it raises on an undefined schema or a `$ref` that is no string. */
  function Walk(defs: Definitions, value: Json, needed: set<string>): (r: Option<set<string>>)
    ensures r.Some? ==> needed <= r.value
    decreases |defs.Keys - needed|, value, 1
  {
    match value
    case Obj(fields) =>
      (match ReferenceOf(fields)
       case NotText => None
       case NoReference => WalkFields(defs, fields, needed)
       case Names(name) =>
         if name in needed then
           WalkFields(defs, fields, needed)
         else if name !in defs then
           None
         else
           SmallerWithout(defs, needed, name);
           var inside := Walk(defs, defs[name], needed + {name});
           if inside.None? then None
           else
             SmallerRest(defs, needed + {name}, inside.value);
             WalkFields(defs, fields, inside.value))
    case Arr(items) => WalkItems(defs, items, needed)
    case _ => Some(needed)
  }

  function WalkFields(defs: Definitions, fields: seq<Member>, needed: set<string>): (r: Option<set<string>>)
    ensures r.Some? ==> needed <= r.value
    decreases |defs.Keys - needed|, fields, 0
  {
    if fields == [] then
      Some(needed)
    else
      var first := Walk(defs, fields[0].value, needed);
      if first.None? then None
      else
        SmallerRest(defs, needed, first.value);
        WalkFields(defs, fields[1..], first.value)
  }

  function WalkItems(defs: Definitions, items: seq<Json>, needed: set<string>): (r: Option<set<string>>)
    ensures r.Some? ==> needed <= r.value
    decreases |defs.Keys - needed|, items, 0
  {
    if items == [] then
      Some(needed)
    else
      var first := Walk(defs, items[0], needed);
      if first.None? then None
      else
        SmallerRest(defs, needed, first.value);
        WalkItems(defs, items[1..], first.value)
  }

  // ---------------------------------------------------------------- soundness

  /** What the walk added is defined, readable and closed, once the walk is over. */
  ghost predicate AddedClosed(defs: Definitions, before: set<string>, after: set<string>) {
    before <= after && forall n :: n in after - before ==> n in defs && Readable(defs[n]) && Mentions(defs[n]) <= after
  }

  lemma AddedChain(defs: Definitions, a: set<string>, b: set<string>, c: set<string>)
    requires AddedClosed(defs, a, b) && AddedClosed(defs, b, c)
    ensures AddedClosed(defs, a, c)
  {
  }

  lemma {:induction false} WalkSound(defs: Definitions, value: Json, needed: set<string>)
    requires Walk(defs, value, needed).Some?
    ensures var r := Walk(defs, value, needed).value;
            Readable(value) && Mentions(value) <= r && AddedClosed(defs, needed, r)
    decreases |defs.Keys - needed|, value, 1
  {
    match value
    case Obj(fields) =>
      match ReferenceOf(fields) {
        case NoReference => FieldsSound(defs, fields, needed);
        case Names(name) =>
          if name in needed {
            FieldsSound(defs, fields, needed);
          } else {
            SmallerWithout(defs, needed, name);
            WalkSound(defs, defs[name], needed + {name});
            var inside := Walk(defs, defs[name], needed + {name}).value;
            SmallerRest(defs, needed + {name}, inside);
            FieldsSound(defs, fields, inside);
            assert AddedClosed(defs, needed, inside);
            AddedChain(defs, needed, inside, WalkFields(defs, fields, inside).value);
          }
      }
    case Arr(items) => ItemsSound(defs, items, needed);
    case _ =>
  }

  lemma {:induction false} FieldsSound(defs: Definitions, fields: seq<Member>, needed: set<string>)
    requires WalkFields(defs, fields, needed).Some?
    ensures var r := WalkFields(defs, fields, needed).value;
            FieldsReadable(fields) && FieldMentions(fields) <= r && AddedClosed(defs, needed, r)
    decreases |defs.Keys - needed|, fields, 0
  {
    if fields != [] {
      var first := Walk(defs, fields[0].value, needed).value;
      WalkSound(defs, fields[0].value, needed);
      SmallerRest(defs, needed, first);
      FieldsSound(defs, fields[1..], first);
      AddedChain(defs, needed, first, WalkFields(defs, fields[1..], first).value);
    }
  }

  lemma {:induction false} ItemsSound(defs: Definitions, items: seq<Json>, needed: set<string>)
    requires WalkItems(defs, items, needed).Some?
    ensures var r := WalkItems(defs, items, needed).value;
            ItemsReadable(items) && ItemMentions(items) <= r && AddedClosed(defs, needed, r)
    decreases |defs.Keys - needed|, items, 0
  {
    if items != [] {
      var first := Walk(defs, items[0], needed).value;
      WalkSound(defs, items[0], needed);
      SmallerRest(defs, needed, first);
      ItemsSound(defs, items[1..], first);
      AddedChain(defs, needed, first, WalkItems(defs, items[1..], first).value);
    }
  }

  // ---------------------------------------------------------------- completeness and minimality

  /** Against any closed set that covers the value, the walk succeeds and stays inside. */
  lemma {:induction false} WalkInside(defs: Definitions, value: Json, needed: set<string>, all: set<string>)
    requires Covers(defs, value, all) && needed <= all
    ensures Walk(defs, value, needed).Some? && Walk(defs, value, needed).value <= all
    decreases |defs.Keys - needed|, value, 1
  {
    match value
    case Obj(fields) =>
      match ReferenceOf(fields) {
        case NoReference => FieldsInside(defs, fields, needed, all);
        case Names(name) =>
          if name in needed {
            FieldsInside(defs, fields, needed, all);
          } else {
            assert name in all;
            SmallerWithout(defs, needed, name);
            WalkInside(defs, defs[name], needed + {name}, all);
            var inside := Walk(defs, defs[name], needed + {name}).value;
            SmallerRest(defs, needed + {name}, inside);
            FieldsInside(defs, fields, inside, all);
          }
        case NotText =>
      }
    case Arr(items) => ItemsInside(defs, items, needed, all);
    case _ =>
  }

  lemma {:induction false} FieldsInside(defs: Definitions, fields: seq<Member>, needed: set<string>, all: set<string>)
    requires FieldsReadable(fields) && FieldMentions(fields) <= all && ClosedUnder(defs, all) && needed <= all
    ensures WalkFields(defs, fields, needed).Some? && WalkFields(defs, fields, needed).value <= all
    decreases |defs.Keys - needed|, fields, 0
  {
    if fields != [] {
      WalkInside(defs, fields[0].value, needed, all);
      var first := Walk(defs, fields[0].value, needed).value;
      SmallerRest(defs, needed, first);
      FieldsInside(defs, fields[1..], first, all);
    }
  }

  lemma {:induction false} ItemsInside(defs: Definitions, items: seq<Json>, needed: set<string>, all: set<string>)
    requires ItemsReadable(items) && ItemMentions(items) <= all && ClosedUnder(defs, all) && needed <= all
    ensures WalkItems(defs, items, needed).Some? && WalkItems(defs, items, needed).value <= all
    decreases |defs.Keys - needed|, items, 0
  {
    if items != [] {
      WalkInside(defs, items[0], needed, all);
      var first := Walk(defs, items[0], needed).value;
      SmallerRest(defs, needed, first);
      ItemsInside(defs, items[1..], first, all);
    }
  }

  /**
   The schemas collected from the selected paths are the least closed set that covers them: every
   reference in the artifact resolves inside the artifact, and nothing unreachable is included.
   The walk ends on cyclic schemas, and fails exactly when no such set exists.
   */
  lemma ClosureIsLeast(defs: Definitions, paths: Json)
    ensures var r := Walk(defs, paths, {});
            && (r.Some? <==> exists all :: Covers(defs, paths, all))
            && (r.Some? ==> Covers(defs, paths, r.value) && forall all :: Covers(defs, paths, all) ==> r.value <= all)
  {
    var r := Walk(defs, paths, {});
    if r.Some? {
      WalkSound(defs, paths, {});
      assert r.value - {} == r.value;
      assert Covers(defs, paths, r.value);
    }
    forall all | Covers(defs, paths, all) ensures r.Some? && r.value <= all {
      WalkInside(defs, paths, {}, all);
    }
  }

  // ---------------------------------------------------------------- the walk in place

  /** The generator's `needed` set, grown while the recursion runs. */
  class Collector {
    var needed: set<string>

    constructor ()
      ensures needed == {}
    {
      needed := {};
    }

    method References(defs: Definitions, value: Json) returns (ok: bool)
      modifies this
      ensures var spec := Walk(defs, value, old(needed));
              ok == spec.Some? && (ok ==> needed == spec.value)
      decreases |defs.Keys - needed|, value, 1
    {
      match value {
        case Obj(fields) =>
          match ReferenceOf(fields) {
            case NotText => return false;
            case NoReference =>
            case Names(name) =>
              if name !in needed {
                ghost var before := needed;
                needed := needed + {name};
                if name !in defs {
                  return false;
                }
                SmallerWithout(defs, before, name);
                ok := References(defs, defs[name]);
                if !ok {
                  return false;
                }
                SmallerRest(defs, before + {name}, needed);
              }
          }
          ok := Fields(defs, fields);
        case Arr(items) =>
          ok := Items(defs, items);
        case _ =>
          ok := true;
      }
    }

    method Fields(defs: Definitions, fields: seq<Member>) returns (ok: bool)
      modifies this
      ensures var spec := WalkFields(defs, fields, old(needed));
              ok == spec.Some? && (ok ==> needed == spec.value)
      decreases |defs.Keys - needed|, fields, 0
    {
      if fields == [] {
        return true;
      }
      hide Walk;
      ghost var before := needed;
      ok := References(defs, fields[0].value);
      if !ok {
        return false;
      }
      SmallerRest(defs, before, needed);
      ghost var first := needed;
      ok := Fields(defs, fields[1..]);
      assert WalkFields(defs, fields, before) == WalkFields(defs, fields[1..], first);
    }

    method Items(defs: Definitions, items: seq<Json>) returns (ok: bool)
      modifies this
      ensures var spec := WalkItems(defs, items, old(needed));
              ok == spec.Some? && (ok ==> needed == spec.value)
      decreases |defs.Keys - needed|, items, 0
    {
      if items == [] {
        return true;
      }
      hide Walk;
      ghost var before := needed;
      ok := References(defs, items[0]);
      if !ok {
        return false;
      }
      SmallerRest(defs, before, needed);
      ghost var first := needed;
      ok := Items(defs, items[1..]);
      assert WalkItems(defs, items, before) == WalkItems(defs, items[1..], first);
    }
  }

  /** `artifact`: the schema section of the published document. */
  method CollectSchemas(defs: Definitions, paths: Json) returns (schemas: Option<Definitions>)
    ensures schemas.Some? <==> exists all :: Covers(defs, paths, all)
    ensures schemas.Some? ==>
              && Covers(schemas.value, paths, schemas.value.Keys)
              && (forall n :: n in schemas.value ==> n in defs && schemas.value[n] == defs[n])
              && (forall all :: Covers(defs, paths, all) ==> schemas.value.Keys <= all)
  {
    ClosureIsLeast(defs, paths);
    var collector := new Collector();
    var ok := collector.References(defs, paths);
    if !ok {
      return None;
    }
    var needed := collector.needed;
    schemas := Some(map n | n in needed && n in defs :: defs[n]);
    assert schemas.value.Keys == needed;
  }
}
