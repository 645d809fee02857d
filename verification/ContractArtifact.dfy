/**
 The published artifact as a document: which of its schema references resolve, read as JSON Pointers.
 The closure reads a reference by the text after its last slash, a pointer by all of its tokens.
 */
module ContractArtifact {
  import opened Wrappers
  import opened JsonValues
  import opened Text
  import opened ContractClosure
  import P = Pointers

  // ---------------------------------------------------------------- the document

  /** The members list the schemas, once each, with their definitions. */
  ghost predicate Lists(members: seq<Member>, schemas: Definitions) {
    && (forall i :: 0 <= i < |members| ==> members[i].name in schemas && members[i].value == schemas[members[i].name])
    && (forall n :: n in schemas ==> Named(members, n))
  }

  predicate Named(members: seq<Member>, name: string) {
    exists i :: 0 <= i < |members| && members[i].name == name
  }

  const INFO := Obj([Member("title", Str("Bancaemdia Collection")), Member("version", Str("2.0.0"))])

  function Components(members: seq<Member>, security: Json): Json {
    Obj([Member("schemas", Obj(members)), Member("securitySchemes", security)])
  }

  function Artifact(openapi: string, paths: Json, members: seq<Member>, security: Json): Json {
    Obj([Member("openapi", Str(openapi)), Member("info", INFO), Member("paths", paths),
         Member("components", Components(members, security))])
  }

  lemma {:induction false} FieldOfListed(members: seq<Member>, schemas: Definitions, name: string)
    requires forall i :: 0 <= i < |members| ==> members[i].name in schemas && members[i].value == schemas[members[i].name]
    ensures Field(members, name) == if Named(members, name) then Some(schemas[name]) else None
  {
    if members != [] {
      FieldOfListed(members[1..], schemas, name);
      if Named(members, name) && members[0].name != name {
        var i :| 0 <= i < |members| && members[i].name == name;
        assert members[1..][i - 1].name == name;
      }
      if Named(members[1..], name) {
        var i :| 0 <= i < |members[1..]| && members[1..][i].name == name;
        assert members[i + 1].name == name;
      }
    }
  }

  // ---------------------------------------------------------------- what a reference resolves to

  /** A name that no pointer syntax can split or change. */
  predicate Plain(name: string) {
    Free(name, '/') && Free(name, '~')
  }

  lemma {:induction false} PlainEscapes(name: string)
    requires Plain(name)
    ensures P.Escape(name) == name
  {
    if name != "" {
      assert name[0] in name;
      PlainEscapes(name[1..]);
      assert [name[0]] + name[1..] == name;
    }
  }

  lemma PlainUnescapes(name: string)
    requires Plain(name)
    ensures P.Unescape(name) == name
  {
    PlainEscapes(name);
    P.UnescapeOfEscape(name);
    hide P.Escape, P.Unescape;
  }

  lemma PrefixTokens(rest: string)
    ensures StartsWith(PREFIX + rest, P.LOCAL)
    ensures P.UnescapeAll(Split((PREFIX + rest)[2..], '/'))
            == ["components", "schemas"] + P.UnescapeAll(Split(rest, '/'))
  {
    hide P.Unescape, Split, P.UnescapeAll;
    PrefixText(rest);
    PrefixNames();
    SplitAtFirst("components", "schemas" + ['/'] + rest, '/');
    SplitAtFirst("schemas", rest, '/');
    var tokens := Split(rest, '/');
    UnescapeFirst("components", ["schemas"] + tokens);
    UnescapeFirst("schemas", tokens);
    assert ["components"] + (["schemas"] + P.UnescapeAll(tokens)) == ["components", "schemas"] + P.UnescapeAll(tokens);
  }

  lemma PrefixText(rest: string)
    ensures PREFIX == P.LOCAL + ("components" + ['/'] + ("schemas" + ['/']))
    ensures StartsWith(PREFIX + rest, P.LOCAL)
    ensures (PREFIX + rest)[2..] == "components" + ['/'] + ("schemas" + ['/'] + rest)
  {
    var tail := "components" + ['/'] + ("schemas" + ['/']);
    assert PREFIX == P.LOCAL + tail;
    assert PREFIX + rest == P.LOCAL + (tail + rest);
    assert tail + rest == "components" + ['/'] + ("schemas" + ['/'] + rest);
  }

  lemma PrefixNames()
    ensures Plain("components") && Plain("schemas")
  {
  }

  lemma UnescapeFirst(name: string, tokens: seq<string>)
    requires Plain(name)
    ensures P.UnescapeAll([name] + tokens) == [name] + P.UnescapeAll(tokens)
  {
    PlainUnescapes(name);
    hide P.Unescape;
    assert ([name] + tokens)[1..] == tokens;
  }

  /** A schema reference is followed from the object that lists the schemas. */
  lemma ResolveInSchemas(openapi: string, paths: Json, members: seq<Member>, security: Json, rest: string)
    ensures StartsWith(PREFIX + rest, P.LOCAL)
    ensures P.Resolve(Artifact(openapi, paths, members, security), PREFIX + rest)
            == P.Follow(Obj(members), P.UnescapeAll(Split(rest, '/')))
  {
    PrefixTokens(rest);
    hide P.UnescapeAll, Split;
    var tokens := P.UnescapeAll(Split(rest, '/'));
    FollowSchemas(openapi, paths, members, security, tokens);
  }

  lemma FollowSchemas(openapi: string, paths: Json, members: seq<Member>, security: Json, tokens: seq<string>)
    ensures P.Follow(Artifact(openapi, paths, members, security), ["components", "schemas"] + tokens)
            == P.Follow(Obj(members), tokens)
  {
    var names := ["components", "schemas"] + tokens;
    assert names[1..] == ["schemas"] + tokens && names[1..][1..] == tokens;
    FieldAt(Components(members, security).fields, 0);
    FieldAt(Artifact(openapi, paths, members, security).fields, 3);
    hide Field;
  }

  lemma {:induction false} FieldAt(fields: seq<Member>, i: nat)
    requires i < |fields| && forall j :: 0 <= j < i ==> fields[j].name != fields[i].name
    ensures Field(fields, fields[i].name) == Some(fields[i].value)
  {
    if i > 0 {
      FieldAt(fields[1..], i - 1);
    }
  }

  /**
   Exactly which schema references resolve in the artifact: those whose first token, unescaped, names a
   schema in which the remaining tokens lead somewhere. The last token, by which the closure reads the
   reference, decides nothing.
   */
  lemma ResolvesExactly(openapi: string, paths: Json, members: seq<Member>, security: Json, schemas: Definitions, rest: string)
    requires Lists(members, schemas)
    ensures StartsWith(PREFIX + rest, P.LOCAL)
    ensures var tokens := P.UnescapeAll(Split(rest, '/'));
            && tokens != []
            && P.Resolve(Artifact(openapi, paths, members, security), PREFIX + rest)
               == if tokens[0] in schemas then P.Follow(schemas[tokens[0]], tokens[1..]) else None
  {
    hide P.Resolve, P.Unescape;
    ResolveInSchemas(openapi, paths, members, security, rest);
    var tokens := P.UnescapeAll(Split(rest, '/'));
    FieldOfListed(members, schemas, tokens[0]);
  }

  /** A reference by one name resolves exactly when the unescaped name is a schema; a plain one to its own. */
  lemma SingleNameExactly(openapi: string, paths: Json, members: seq<Member>, security: Json, schemas: Definitions, name: string)
    requires Lists(members, schemas) && Free(name, '/')
    ensures StartsWith(PREFIX + name, P.LOCAL)
    ensures P.Resolve(Artifact(openapi, paths, members, security), PREFIX + name)
            == if P.Unescape(name) in schemas then Some(schemas[P.Unescape(name)]) else None
    ensures Plain(name) ==> P.Unescape(name) == name
  {
    hide P.Resolve, P.Unescape;
    ResolvesExactly(openapi, paths, members, security, schemas, name);
    SplitOfFree(name, '/');
    assert P.UnescapeAll([name]) == [P.Unescape(name)];
    if Plain(name) {
      PlainUnescapes(name);
    }
  }

  // ---------------------------------------------------------------- every reference the artifact carries

  lemma {:induction false} FieldMentioned(fields: seq<Member>, i: nat)
    requires i < |fields|
    ensures Mentions(fields[i].value) <= FieldMentions(fields)
    ensures FieldsReadable(fields) ==> Readable(fields[i].value)
  {
    if i > 0 {
      FieldMentioned(fields[1..], i - 1);
    }
  }

  lemma {:induction false} ItemMentioned(items: seq<Json>, i: nat)
    requires i < |items|
    ensures Mentions(items[i]) <= ItemMentions(items)
    ensures ItemsReadable(items) ==> Readable(items[i])
  {
    if i > 0 {
      ItemMentioned(items[1..], i - 1);
    }
  }

  /** What stands at any place mentions no more than the whole. */
  lemma {:induction false} InsideMentions(value: Json, place: seq<nat>)
    requires P.Inside(value, place).Some?
    ensures Mentions(P.Inside(value, place).value) <= Mentions(value)
    ensures Readable(value) ==> Readable(P.Inside(value, place).value)
    decreases |place|
  {
    if place != [] {
      InsideMentions(P.Child(value, place[0]), place[1..]);
      match value
      case Obj(fields) => FieldMentioned(fields, place[0]);
      case Arr(items) => ItemMentioned(items, place[0]);
    }
  }

  lemma {:induction false} LastSegment(path: string, name: string)
    requires Free(name, '/') && (path == "" || path[|path| - 1] == '/')
    ensures AfterLastSlash(path + name) == name
  {
    if name == "" {
      assert path + name == path;
    } else {
      var n := |name| - 1;
      assert name[n] in name;
      LastSegment(path, name[..n]);
      assert (path + name)[..|path + name| - 1] == path + name[..n];
      assert name[..n] + [name[n]] == name;
    }
  }

  /** The paths, or one of the schemas: the parts of the artifact that the closure walked. */
  ghost predicate Walked(paths: Json, schemas: Definitions, part: Json) {
    part == paths || exists n :: n in schemas && schemas[n] == part
  }

  /** An object with a schema reference, at some place of a walked part. */
  ghost predicate RefersAt(part: Json, place: seq<nat>, rest: string) {
    var v := P.Inside(part, place);
    v.Some? && v.value.Obj? && Field(v.value.fields, "$ref") == Some(Str("#/components/schemas/" + rest))
  }

  lemma ReferenceCollected(schemas: Definitions, paths: Json, part: Json, place: seq<nat>, rest: string)
    requires Covers(schemas, paths, schemas.Keys) && Walked(paths, schemas, part) && RefersAt(part, place, rest)
    ensures AfterLastSlash(PREFIX + rest) in schemas
  {
    InsideMentions(part, place);
    var fields := P.Inside(part, place).value.fields;
    assert (PREFIX + rest)[..|PREFIX|] == PREFIX;
    assert ReferenceOf(fields) == Names(AfterLastSlash(PREFIX + rest));
    assert AfterLastSlash(PREFIX + rest) in Mentions(Obj(fields));
  }

  /**
   Every object at any depth of the paths or the schemas whose reference is the prefix and a plain name
   resolves in the artifact, to that schema's definition.
   */
  lemma PlainReferencesResolve(openapi: string, paths: Json, members: seq<Member>, security: Json, schemas: Definitions,
                               part: Json, place: seq<nat>, name: string)
    requires Covers(schemas, paths, schemas.Keys) && Lists(members, schemas)
    requires Walked(paths, schemas, part) && RefersAt(part, place, name) && Plain(name)
    ensures StartsWith("#/components/schemas/" + name, P.LOCAL) && name in schemas
    ensures P.Resolve(Artifact(openapi, paths, members, security), "#/components/schemas/" + name) == Some(schemas[name])
  {
    hide Covers, Lists, Walked, RefersAt, P.Resolve, P.Unescape;
    ReferenceCollected(schemas, paths, part, place, name);
    LastSegment(PREFIX, name);
    SingleNameExactly(openapi, paths, members, security, schemas, name);
  }

  /** Every local reference in `part` is the prefix and a plain name. */
  ghost predicate OnlyPlain(part: Json) {
    forall place: seq<nat> :: PlainAt(part, place)
  }

  ghost predicate PlainAt(part: Json, place: seq<nat>) {
    var v := P.Inside(part, place);
    v.Some? && v.value.Obj? ==>
      var ref := Field(v.value.fields, REF);
      ref.Some? && ref.value.Str? && StartsWith(ref.value.text, P.LOCAL) ==>
        StartsWith(ref.value.text, PREFIX) && Plain(ref.value.text[|PREFIX|..])
  }

  lemma DanglesExactly(document: Json, text: string)
    requires StartsWith(text, P.LOCAL)
    ensures P.Dangles(document, text) <==> P.Resolve(document, text) == None
  {
  }

  lemma PartValidates(openapi: string, paths: Json, members: seq<Member>, security: Json, schemas: Definitions, part: Json)
    requires Covers(schemas, paths, schemas.Keys) && Lists(members, schemas)
    requires Walked(paths, schemas, part) && OnlyPlain(part)
    ensures P.Visit(Artifact(openapi, paths, members, security), part)
  {
    hide Covers, Lists, Walked, P.Resolve, Artifact;
    var artifact := Artifact(openapi, paths, members, security);
    forall place ensures !P.BrokenAt(artifact, part, place) {
      assert PlainAt(part, place);
      if P.BrokenAt(artifact, part, place) {
        var text := Field(P.Inside(part, place).value.fields, REF).value.text;
        var name := text[|PREFIX|..];
        assert text == PREFIX + name;
        assert P.Dangles(artifact, text);
        DanglesExactly(artifact, text);
        PlainReferencesResolve(openapi, paths, members, security, schemas, part, place, name);
      }
    }
    P.VisitFindsEveryReference(artifact, part);
  }

  /**
   If the paths and schemas refer by plain names only, the whole artifact passes the repository's own
   check of local references, given that the security schemes do.
   */
  lemma ArtifactValidates(openapi: string, paths: Json, members: seq<Member>, security: Json, schemas: Definitions)
    requires Covers(schemas, paths, schemas.Keys) && Lists(members, schemas)
    requires forall part :: Walked(paths, schemas, part) ==> part.Obj? && OnlyPlain(part)
    requires P.Visit(Artifact(openapi, paths, members, security), security)
    ensures P.Visit(Artifact(openapi, paths, members, security), Artifact(openapi, paths, members, security))
  {
    hide Covers, OnlyPlain, P.Resolve;
    var artifact := Artifact(openapi, paths, members, security);
    PartValidates(openapi, paths, members, security, schemas, paths);
    forall i | 0 <= i < |members| ensures P.Visit(artifact, members[i].value) {
      assert Walked(paths, schemas, members[i].value);
      PartValidates(openapi, paths, members, security, schemas, members[i].value);
    }
    FieldOfListed(members, schemas, REF);
    if Named(members, REF) {
      assert Walked(paths, schemas, schemas[REF]);
    }
    HeaderValidates(openapi, paths, members, security);
  }

  lemma HeaderValidates(openapi: string, paths: Json, members: seq<Member>, security: Json)
    requires var artifact := Artifact(openapi, paths, members, security);
             && P.Visit(artifact, paths) && P.Visit(artifact, security)
             && (forall i :: 0 <= i < |members| ==> P.Visit(artifact, members[i].value))
             && !P.Broken(artifact, members)
    ensures P.Visit(Artifact(openapi, paths, members, security), Artifact(openapi, paths, members, security))
  {
    hide P.Resolve;
    var artifact := Artifact(openapi, paths, members, security);
    assert P.Visit(artifact, Obj(members));
    NoneNamed(["schemas", "securitySchemes"], Components(members, security).fields);
    assert P.Visit(artifact, Components(members, security));
    NoneNamed(["title", "version"], INFO.fields);
    assert P.Visit(artifact, INFO);
    NoneNamed(["openapi", "info", "paths", "components"], artifact.fields);
  }

  lemma {:induction false} NoneNamed(names: seq<string>, fields: seq<Member>)
    requires |names| == |fields| && forall i :: 0 <= i < |names| ==> fields[i].name == names[i] != REF
    ensures Field(fields, REF) == None
  {
    if fields != [] {
      NoneNamed(names[1..], fields[1..]);
    }
  }

  // ---------------------------------------------------------------- references that dangle

  const NESTED := "A/properties/b"
  const NESTED_DEFS: Definitions := map["b" := Obj([])]
  const NESTED_PATHS := Obj([Member(REF, Str(PREFIX + NESTED))])

  /** A reference into a schema is collected as if it named a schema of its last segment, and then dangles. */
  lemma NestedReferenceDangles(openapi: string, members: seq<Member>, security: Json)
    requires Lists(members, NESTED_DEFS)
    ensures Walk(NESTED_DEFS, NESTED_PATHS, {}) == Some({"b"}) && Covers(NESTED_DEFS, NESTED_PATHS, {"b"})
    ensures P.Broken(Artifact(openapi, NESTED_PATHS, members, security), NESTED_PATHS.fields)
  {
    hide P.Resolve, Walk, Covers, P.Unescape, Split, Artifact, AfterLastSlash;
    NestedName();
    NestedWalk();
    NestedCovers();
    ResolvesExactly(openapi, NESTED_PATHS, members, security, NESTED_DEFS, NESTED);
    NestedTokens();
  }

  lemma NestedTokens()
    ensures P.UnescapeAll(Split(NESTED, '/'))[0] == "A"
  {
    assert NESTED == "A" + ['/'] + "properties/b";
    SplitAtFirst("A", "properties/b", '/');
    hide Split;
    UnescapeFirst("A", Split("properties/b", '/'));
  }

  lemma NestedName()
    ensures ReferenceOf(NESTED_PATHS.fields) == Names("b")
  {
    var path := PREFIX + "A/properties/";
    LastSegment(path, "b");
    assert path + "b" == PREFIX + NESTED;
    assert (PREFIX + NESTED)[..|PREFIX|] == PREFIX;
    hide AfterLastSlash;
  }

  lemma NestedWalk()
    ensures Walk(NESTED_DEFS, NESTED_PATHS, {}) == Some({"b"})
  {
    NestedName();
    hide ReferenceOf, AfterLastSlash;
    EmptyObject();
    assert NESTED_PATHS.fields[1..] == [];
    assert WalkFields(NESTED_DEFS, [], {"b"}) == Some({"b"});
    assert Walk(NESTED_DEFS, Obj([]), {"b"}) == Some({"b"});
    assert Walk(NESTED_DEFS, Str(PREFIX + NESTED), {"b"}) == Some({"b"});
    assert WalkFields(NESTED_DEFS, NESTED_PATHS.fields, {"b"}) == Some({"b"});
    assert {} + {"b"} == {"b"};
  }

  lemma EmptyObject()
    ensures ReferenceOf([]) == NoReference
  {
  }

  lemma NestedCovers()
    ensures Covers(NESTED_DEFS, NESTED_PATHS, {"b"})
  {
    NestedName();
    hide ReferenceOf, AfterLastSlash;
    EmptyObject();
    assert Mentions(Str(PREFIX + NESTED)) == {} && NESTED_PATHS.fields[1..] == [];
    assert FieldMentions(NESTED_PATHS.fields) == {};
    assert Readable(Str(PREFIX + NESTED)) && FieldsReadable(NESTED_PATHS.fields);
    assert Mentions(Obj([])) == {} && Readable(Obj([]));
    assert Mentions(NESTED_PATHS) == {"b"} + {};
  }

  // ---------------------------------------------------------------- building the artifact

  predicate Before(a: string, b: string) {
    if b == "" then false
    else if a == "" then true
    else a[0] < b[0] || (a[0] == b[0] && Before(a[1..], b[1..]))
  }

  lemma {:induction false} BeforeOrders(a: string, b: string, c: string)
    ensures Before(a, b) && Before(b, c) ==> Before(a, c)
    ensures Before(a, b) || Before(b, a) || a == b
    ensures !Before(a, a)
  {
    if a != "" {
      BeforeOrders(a[1..], if b == "" then "" else b[1..], if c == "" then "" else c[1..]);
      assert a == [a[0]] + a[1..];
      assert b != "" ==> b == [b[0]] + b[1..];
    }
  }

  ghost predicate Sorted(members: seq<Member>) {
    forall i, j :: 0 <= i < j < |members| ==> Before(members[i].name, members[j].name)
  }

  function Insert(m: Member, members: seq<Member>): (r: seq<Member>) {
    if members == [] || Before(m.name, members[0].name) then [m] + members
    else [members[0]] + Insert(m, members[1..])
  }

  lemma {:induction false} InsertMembers(m: Member, members: seq<Member>)
    ensures forall x :: x in Insert(m, members) <==> x == m || x in members
  {
    if members != [] {
      InsertMembers(m, members[1..]);
      assert members == [members[0]] + members[1..];
    }
  }

  lemma {:induction false} InsertSorted(m: Member, members: seq<Member>)
    requires Sorted(members) && !Named(members, m.name)
    ensures Sorted(Insert(m, members))
  {
    if members == [] {
    } else if Before(m.name, members[0].name) {
      forall j | 0 <= j < |members| ensures Before(m.name, members[j].name) {
        BeforeOrders(m.name, members[0].name, members[j].name);
      }
    } else {
      var rest := members[1..];
      assert forall i :: 0 <= i < |rest| ==> rest[i] == members[i + 1];
      InsertSorted(m, rest);
      InsertMembers(m, rest);
      BeforeOrders(m.name, members[0].name, members[0].name);
      var after := Insert(m, rest);
      forall j | 0 <= j < |after| ensures Before(members[0].name, after[j].name) {
        assert after[j] in after;
      }
    }
  }

  /** The list a sorted document can have is one only, so the published bytes are reproducible. */
  lemma {:induction false} SortedIsUnique(a: seq<Member>, b: seq<Member>)
    requires Sorted(a) && Sorted(b) && forall x :: x in a <==> x in b
    ensures a == b
  {
    if a == [] {
      FirstListed(b);
    } else {
      assert a[0] in a;
      assert b[0] in b;
      SameFirst(a, b);
      assert a == [a[0]] + a[1..] && b == [b[0]] + b[1..];
      forall x | x in a[1..] ensures x in b[1..] { FirstOnce(a, x); }
      forall x | x in b[1..] ensures x in a[1..] { FirstOnce(b, x); }
      SortedIsUnique(a[1..], b[1..]);
    }
  }

  lemma FirstListed(b: seq<Member>)
    ensures b != [] ==> b[0] in b
  {
  }

  lemma NamedMember(members: seq<Member>, name: string)
    ensures Named(members, name) ==> exists x :: x in members && x.name == name
  {
  }

  lemma FirstOnce(a: seq<Member>, x: Member)
    requires Sorted(a) && a != [] && x in a[1..]
    ensures x != a[0] && x in a
  {
    var i :| 0 <= i < |a[1..]| && a[1..][i] == x;
    assert a[i + 1] == x;
    BeforeOrders(a[0].name, a[0].name, a[0].name);
  }

  lemma SameFirst(a: seq<Member>, b: seq<Member>)
    requires Sorted(a) && Sorted(b) && a != [] && b != [] && forall x :: x in a <==> x in b
    ensures a[0] == b[0]
  {
    assert a[0] in b && b[0] in a;
    var i :| 0 <= i < |b| && b[i] == a[0];
    var j :| 0 <= j < |a| && a[j] == b[0];
    BeforeOrders(a[0].name, b[0].name, a[0].name);
  }

  /** `artifact`: the document, with its schemas sorted by name. */
  method BuildArtifact(openapi: string, defs: Definitions, paths: Json, security: Json)
    returns (artifact: Option<Json>, ghost schemas: Definitions, ghost members: seq<Member>)
    ensures artifact.Some? <==> exists all :: Covers(defs, paths, all)
    ensures artifact.Some? ==>
              && artifact.value == Artifact(openapi, paths, members, security)
              && Lists(members, schemas) && Sorted(members) && Covers(schemas, paths, schemas.Keys)
              && (forall n :: n in schemas ==> n in defs && schemas[n] == defs[n])
              && (forall all :: Covers(defs, paths, all) ==> schemas.Keys <= all)
  {
    hide Covers;
    var collected := CollectSchemas(defs, paths);
    schemas, members := map[], [];
    if collected.None? {
      return None, schemas, members;
    }
    schemas := collected.value;
    var list: seq<Member>, todo := [], collected.value.Keys;
    while todo != {}
      invariant todo <= collected.value.Keys && Sorted(list)
      invariant forall x :: x in list <==> x.name in collected.value.Keys - todo && x.value == collected.value[x.name]
      decreases |todo|
    {
      var name :| name in todo;
      var m := Member(name, collected.value[name]);
      NamedMember(list, name);
      InsertSorted(m, list);
      InsertMembers(m, list);
      list := Insert(m, list);
      todo := todo - {name};
    }
    members := list;
    forall n | n in schemas ensures Named(members, n) {
      assert Member(n, schemas[n]) in members;
    }
    artifact := Some(Artifact(openapi, paths, list, security));
  }
}
