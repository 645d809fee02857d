/**
 Local references of the baseline document: JSON Pointers, whose reference tokens escape "~" as
 "~0" and "/" as "~1" (section 4 of RFC 6901).
 */
module Pointers {
  import opened Wrappers
  import opened Text
  import opened JsonValues

  /** Python's str.replace of a two-character text by one character. */
  function Replace(s: string, a: char, b: char, put: char): string {
    if |s| >= 2 && s[0] == a && s[1] == b then [put] + Replace(s[2..], a, b, put)
    else if s == "" then ""
    else [s[0]] + Replace(s[1..], a, b, put)
  }

  /** The two replacements, in the order in which the validator makes them. */
  function Unescape(token: string): string {
    Replace(Replace(token, '~', '1', '/'), '~', '0', '~')
  }

  function EscapeChar(c: char): string {
    if c == '~' then "~0" else if c == '/' then "~1" else [c]
  }

  /** How a writer must escape a name to make it a reference token. */
  function Escape(name: string): string {
    if name == "" then "" else EscapeChar(name[0]) + Escape(name[1..])
  }

  /** The name with only its tildes escaped. */
  function EscapeTildes(name: string): string {
    if name == "" then "" else (if name[0] == '~' then "~0" else [name[0]]) + EscapeTildes(name[1..])
  }

  lemma ReplaceSkips(c: char, rest: string, a: char, b: char, put: char)
    requires c != a
    ensures Replace([c] + rest, a, b, put) == [c] + Replace(rest, a, b, put)
  {
  }

  lemma ReplacePair(a: char, c: char, rest: string, b: char, put: char)
    requires c != a
    ensures Replace([a, c] + rest, a, b, put)
            == if c == b then [put] + Replace(rest, a, b, put) else [a, c] + Replace(rest, a, b, put)
  {
  }

  lemma {:induction false} SlashesFirst(name: string)
    ensures Replace(Escape(name), '~', '1', '/') == EscapeTildes(name)
  {
    if name != "" {
      SlashesFirst(name[1..]);
      var rest := Escape(name[1..]);
      if name[0] == '~' {
        ReplacePair('~', '0', rest, '1', '/');
      } else if name[0] == '/' {
        ReplacePair('~', '1', rest, '1', '/');
      } else {
        ReplaceSkips(name[0], rest, '~', '1', '/');
      }
    }
  }

  lemma {:induction false} TildesLast(name: string)
    ensures Replace(EscapeTildes(name), '~', '0', '~') == name
  {
    if name != "" {
      TildesLast(name[1..]);
      var rest := EscapeTildes(name[1..]);
      if name[0] == '~' {
        ReplacePair('~', '0', rest, '0', '~');
      } else {
        ReplaceSkips(name[0], rest, '~', '0', '~');
      }
      assert [name[0]] + name[1..] == name;
    }
  }

  /** Unescaping an escaped name gives the name, whatever tildes, slashes and digits it holds. */
  lemma UnescapeOfEscape(name: string)
    ensures Unescape(Escape(name)) == name
  {
    SlashesFirst(name);
    TildesLast(name);
  }

  /** In the other order the two replacements are not an inverse. */
  lemma OrderMatters()
    ensures Escape("~1") == "~01"
    ensures Replace(Replace("~01", '~', '0', '~'), '~', '1', '/') != "~1"
  {
  }

  lemma {:induction false} EscapedIsSlashFree(name: string)
    ensures Free(Escape(name), '/')
  {
    if name != "" {
      EscapedIsSlashFree(name[1..]);
    }
  }

  // ---------------------------------------------------------------- resolving

  /** Walking objects by name; anything that is not an object, or lacks the name, raises. */
  function Follow(value: Json, names: seq<string>): Option<Json>
    decreases |names|
  {
    if names == [] then
      Some(value)
    else if !value.Obj? then
      None
    else
      var next := Field(value.fields, names[0]);
      if next.None? then None else Follow(next.value, names[1..])
  }

  function UnescapeAll(tokens: seq<string>): seq<string> {
    if tokens == [] then [] else [Unescape(tokens[0])] + UnescapeAll(tokens[1..])
  }

  function EscapeAll(names: seq<string>): (r: seq<string>)
    ensures |r| == |names|
  {
    if names == [] then [] else [Escape(names[0])] + EscapeAll(names[1..])
  }

  const LOCAL := "#/"

  /** What `_validate_references` finds behind a local reference. */
  function Resolve(document: Json, reference: string): Option<Json>
    requires StartsWith(reference, LOCAL)
  {
    Follow(document, UnescapeAll(Split(reference[2..], '/')))
  }

  /** The reference to the value at `names`. */
  function PointerTo(names: seq<string>): string {
    LOCAL + Join(EscapeAll(names), '/')
  }

  lemma {:induction false} EscapeAllIsFree(names: seq<string>)
    ensures forall i :: 0 <= i < |names| ==> Free(EscapeAll(names)[i], '/')
    ensures UnescapeAll(EscapeAll(names)) == names
  {
    if names != [] {
      EscapeAllIsFree(names[1..]);
      EscapedIsSlashFree(names[0]);
      UnescapeOfEscape(names[0]);
      assert EscapeAll(names)[1..] == EscapeAll(names[1..]);
      hide Escape, Unescape;
    }
  }

  /** A pointer written for a place in the document resolves to exactly what is at that place. */
  lemma PointerRoundTrip(document: Json, names: seq<string>)
    requires names != []
    ensures StartsWith(PointerTo(names), LOCAL)
    ensures Resolve(document, PointerTo(names)) == Follow(document, names)
  {
    EscapeAllIsFree(names);
    SplitOfJoin(EscapeAll(names), '/');
    assert PointerTo(names)[2..] == Join(EscapeAll(names), '/');
  }

  // ---------------------------------------------------------------- the check over the document

  /** The object holds a local reference that does not resolve. */
  predicate Broken(document: Json, fields: seq<Member>) {
    var reference := Field(fields, "$ref");
    && reference.Some? && reference.value.Str? && StartsWith(reference.value.text, LOCAL)
    && Resolve(document, reference.value.text).None?
  }

  /** `visit`: true when it raises nothing. */
  predicate Visit(document: Json, value: Json) {
    match value
    case Obj(fields) =>
      !Broken(document, fields) && forall i :: 0 <= i < |fields| ==> Visit(document, fields[i].value)
    case Arr(items) => forall i :: 0 <= i < |items| ==> Visit(document, items[i])
    case _ => true
  }

  function Children(value: Json): nat {
    match value
    case Obj(fields) => |fields|
    case Arr(items) => |items|
    case _ => 0
  }

  function Child(value: Json, i: nat): Json
    requires i < Children(value)
  {
    match value
    case Obj(fields) => fields[i].value
    case Arr(items) => items[i]
  }

  /** The value at a place: the child indexes that lead to it. */
  function Inside(value: Json, place: seq<nat>): Option<Json>
    decreases |place|
  {
    if place == [] then Some(value)
    else if place[0] < Children(value) then Inside(Child(value, place[0]), place[1..])
    else None
  }

  /** The reference is local, and there is nothing where it points. */
  ghost predicate Dangles(document: Json, text: string) {
    StartsWith(text, "#/") && text[..2] == "#/" && Follow(document, UnescapeAll(Split(text[2..], '/'))) == None
  }

  ghost predicate BrokenAt(document: Json, value: Json, place: seq<nat>) {
    var v := Inside(value, place);
    v.Some? && v.value.Obj? && exists text :: Field(v.value.fields, "$ref") == Some(Str(text)) && Dangles(document, text)
  }

  /** The check passes exactly when no object anywhere in the document holds a dangling local reference. */
  lemma VisitFindsEveryReference(document: Json, value: Json)
    ensures Visit(document, value) <==> forall place :: !BrokenAt(document, value, place)
  {
    if Visit(document, value) {
      forall place ensures !BrokenAt(document, value, place) {
        VisitedPlace(document, value, place);
      }
    } else {
      var place := DanglingPlace(document, value);
    }
  }

  lemma {:induction false} VisitedPlace(document: Json, value: Json, place: seq<nat>)
    requires Visit(document, value)
    ensures !BrokenAt(document, value, place)
    decreases |place|
  {
    if place != [] && place[0] < Children(value) {
      VisitedPlace(document, Child(value, place[0]), place[1..]);
    }
  }

  lemma DanglingChild(document: Json, value: Json) returns (i: nat)
    requires !Visit(document, value) && !(value.Obj? && Broken(document, value.fields))
    ensures i < Children(value) && !Visit(document, Child(value, i)) && Child(value, i) < value
  {
    match value
    case Obj(fields) => i :| 0 <= i < |fields| && !Visit(document, fields[i].value);
    case Arr(items) => i :| 0 <= i < |items| && !Visit(document, items[i]);
  }

  lemma {:induction false} DanglingPlace(document: Json, value: Json) returns (place: seq<nat>)
    requires !Visit(document, value)
    ensures BrokenAt(document, value, place)
    decreases value
  {
    if value.Obj? && Broken(document, value.fields) {
      place := [];
    } else {
      var i := DanglingChild(document, value);
      var rest := DanglingPlace(document, Child(value, i));
      place := [i] + rest;
      assert place[1..] == rest;
    }
  }
}
