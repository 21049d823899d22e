// Splitting paths and patterns at their slashes.
module Paths {
  import opened Trie

  // strings.Split(s, "/")
  function Split(s: string): (vs: seq<string>)
    ensures vs != []
    ensures forall v :: v in vs ==> '/' !in v
  {
    if s == "" then [""]
    else
      var vs := Split(s[1..]);
      if s[0] == '/' then [""] + vs else [[s[0]] + vs[0]] + vs[1..]
  }

  // strings.Join(parts, "/")
  function Join(parts: seq<string>): string {
    if parts == [] then "" else if |parts| == 1 then parts[0] else parts[0] + "/" + Join(parts[1..])
  }

  // The non-empty items, up to and including the first that starts with '*'.
  function Parts(vs: seq<string>): seq<string> {
    if vs == [] then []
    else if vs[0] == "" then Parts(vs[1..])
    else if StarPart(vs[0]) then [vs[0]]
    else [vs[0]] + Parts(vs[1..])
  }

  function ParsePattern(pattern: string): seq<string> {
    Parts(Split(pattern))
  }

  method ParsePatternLoop(pattern: string) returns (parts: seq<string>)
    ensures parts == ParsePattern(pattern)
  {
    var vs := Split(pattern);
    parts := [];
    for i := 0 to |vs|
      invariant parts + Parts(vs[i..]) == Parts(vs)
    {
      var item := vs[i];
      assert vs[i..][0] == item && vs[i..][1..] == vs[i + 1..];
      if item != "" {
        parts := parts + [item];
        if item[0] == '*' {
          return;
        }
      }
    }
  }

  // What a parsed path looks like: no part is empty or has a slash, and only
  // the last can start with '*'.
  ghost predicate Clean(parts: seq<string>) {
    && (forall p :: p in parts ==> p != "" && '/' !in p)
    && (forall i :: 0 <= i < |parts| - 1 ==> !StarPart(parts[i]))
  }

  lemma {:induction false} PartsAreClean(vs: seq<string>)
    requires forall v :: v in vs ==> '/' !in v
    ensures Clean(Parts(vs))
  {
    if vs != [] {
      PartsAreClean(vs[1..]);
    }
  }

  lemma ParseIsClean(pattern: string)
    ensures Clean(ParsePattern(pattern))
  {
    PartsAreClean(Split(pattern));
  }

  lemma {:induction false} SplitPrefix(part: string, rest: string)
    requires '/' !in part
    ensures Split(part + "/" + rest) == [part] + Split(rest)
    ensures Split(part) == [part]
  {
    if part == "" {
      assert part + "/" + rest == "/" + rest;
      assert ("/" + rest)[1..] == rest;
    } else {
      SplitPrefix(part[1..], rest);
      assert (part + "/" + rest)[1..] == part[1..] + "/" + rest;
      assert [part[0]] + part[1..] == part;
    }
  }

  // Joining and splitting again gives the parts back.
  lemma {:induction false} SplitJoin(parts: seq<string>)
    requires parts != [] && forall p :: p in parts ==> '/' !in p
    ensures Split(Join(parts)) == parts
  {
    SplitPrefix(parts[0], Join(parts[1..]));
    if |parts| > 1 {
      SplitJoin(parts[1..]);
      assert [parts[0]] + parts[1..] == parts;
    }
  }

  lemma {:induction false} JoinSplit(s: string)
    ensures Join(Split(s)) == s
  {
    if s != "" {
      JoinSplit(s[1..]);
      var vs := Split(s[1..]);
      assert s == [s[0]] + s[1..];
      if s[0] == '/' {
        assert ([""] + vs)[1..] == vs;
        assert "" + "/" + Join(vs) == s;
      } else {
        var first := [s[0]] + vs[0];
        assert ([first] + vs[1..])[1..] == vs[1..];
        assert |vs| > 1 ==> first + "/" + Join(vs[1..]) == [s[0]] + (vs[0] + "/" + Join(vs[1..]));
      }
    }
  }

  function NonEmpty(vs: seq<string>): seq<string> {
    if vs == [] then [] else (if vs[0] != "" then [vs[0]] else []) + NonEmpty(vs[1..])
  }

  // What is kept of the items of a split: in their order, all that are not empty
  // and before `end`, which is behind the first that starts with '*', or the last.
  lemma {:induction false} PartsAre(vs: seq<string>) returns (end: nat)
    ensures end <= |vs| && Parts(vs) == NonEmpty(vs[..end])
    ensures forall i :: 0 <= i < end - 1 ==> !Starred(vs[i])
    ensures end == |vs| || (end > 0 && Starred(vs[end - 1]))
  {
    if vs == [] {
      end := 0;
    } else if Starred(vs[0]) {
      end := 1;
      assert vs[..1] == [vs[0]] && [vs[0]][1..] == [];
    } else {
      end := PartsAre(vs[1..]);
      assert vs[..end + 1][1..] == vs[1..][..end];
      end := end + 1;
    }
  }

  predicate Starred(v: string) {
    v != "" && v[0] == '*'
  }

  // A slash and clean parts joined by slashes parse to these parts.
  lemma ParseOfJoin(parts: seq<string>)
    requires Clean(parts) && parts != []
    ensures ParsePattern("/" + Join(parts)) == parts
  {
    SplitJoin(parts);
    assert ("/" + Join(parts))[1..] == Join(parts);
    assert ([""] + parts)[1..] == parts;
    CleanPartsStay(parts);
  }

  lemma {:induction false} CleanPartsStay(parts: seq<string>)
    requires Clean(parts)
    ensures Parts(parts) == parts
  {
    if parts != [] {
      assert parts[0] in parts && forall p :: p in parts[1..] ==> p in parts;
      CleanPartsStay(parts[1..]);
    }
  }
}
