/** Splitting a text at a separator and joining it again, as Python's str.split and str.join do. */
module Text {
  predicate StartsWith(s: string, prefix: string) {
    |prefix| <= |s| && s[..|prefix|] == prefix
  }

  predicate Free(s: string, sep: char) {
    sep !in s
  }

  function Split(text: string, sep: char): (r: seq<string>)
    ensures |r| > 0
  {
    if text == "" then
      [""]
    else if text[0] == sep then
      [""] + Split(text[1..], sep)
    else
      var rest := Split(text[1..], sep);
      [[text[0]] + rest[0]] + rest[1..]
  }

  function Join(parts: seq<string>, sep: char): string {
    if parts == [] then ""
    else if |parts| == 1 then parts[0]
    else parts[0] + [sep] + Join(parts[1..], sep)
  }

  lemma {:induction false} SplitParts(text: string, sep: char)
    ensures forall i :: 0 <= i < |Split(text, sep)| ==> Free(Split(text, sep)[i], sep)
  {
    if text != "" {
      SplitParts(text[1..], sep);
    }
  }

  lemma {:induction false} JoinOfSplit(text: string, sep: char)
    ensures Join(Split(text, sep), sep) == text
  {
    if text != "" {
      var rest := Split(text[1..], sep);
      JoinOfSplit(text[1..], sep);
      if text[0] != sep {
        var parts := Split(text, sep);
        assert parts[1..] == rest[1..];
      } else {
        assert Split(text, sep)[1..] == rest;
      }
    }
  }

  lemma {:induction false} SplitOfFree(s: string, sep: char)
    requires Free(s, sep)
    ensures Split(s, sep) == [s]
  {
    if s != "" {
      SplitOfFree(s[1..], sep);
      var rest := Split(s[1..], sep);
      assert rest[0] == s[1..] && rest[1..] == [];
      assert [s[0]] + s[1..] == s;
      assert s[0] in s;
    }
  }

  lemma {:induction false} SplitAtFirst(s: string, rest: string, sep: char)
    requires Free(s, sep)
    ensures Split(s + [sep] + rest, sep) == [s] + Split(rest, sep)
  {
    var text := s + [sep] + rest;
    if s == "" {
      assert text == [sep] + rest;
    } else {
      SplitAtFirst(s[1..], rest, sep);
      assert text[1..] == s[1..] + [sep] + rest;
      assert [s[0]] + s[1..] == s;
    }
  }

  lemma {:induction false} SplitOfJoin(parts: seq<string>, sep: char)
    requires parts != [] && forall i :: 0 <= i < |parts| ==> Free(parts[i], sep)
    ensures Split(Join(parts, sep), sep) == parts
  {
    if |parts| == 1 {
      SplitOfFree(parts[0], sep);
    } else {
      SplitOfJoin(parts[1..], sep);
      SplitAtFirst(parts[0], Join(parts[1..], sep), sep);
    }
  }
}
