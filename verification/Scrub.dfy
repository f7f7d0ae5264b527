/** Concealing parts of a configuration, and the glob that describes them.
    fold is Unicode simple case folding, character by character. */
module Scrub {
  import opened Wrappers

  // A decoded JSON value; everything but an object is a leaf.
  datatype Json = Leaf(text: string) | Obj(fields: map<string, Json>)

  type Fold = char -> char

  predicate EqualFold(fold: Fold, a: string, b: string) {
    |a| == |b| && forall i :: 0 <= i < |a| ==> fold(a[i]) == fold(b[i])
  }

  function Folded(fold: Fold, s: string): string {
    seq(|s|, i requires 0 <= i < |s| => fold(s[i]))
  }

  // Two names are equal up to case exactly when they fold to the same text.
  lemma EqualFoldIff(fold: Fold, a: string, b: string)
    ensures EqualFold(fold, a, b) <==> Folded(fold, a) == Folded(fold, b)
  {
    if Folded(fold, a) == Folded(fold, b) {
      forall i | 0 <= i < |a| ensures fold(a[i]) == fold(b[i]) {
        assert Folded(fold, a)[i] == Folded(fold, b)[i];
      }
    }
  }

  // Folding that at least ignores the case of ASCII letters.
  predicate IgnoresCase(fold: Fold) {
    forall i :: 0 <= i < 26 ==> fold("ABCDEFGHIJKLMNOPQRSTUVWXYZ"[i]) == fold("abcdefghijklmnopqrstuvwxyz"[i])
  }

  // Then names may be given in any case, and a star stands for any name.
  lemma AnyCase(fold: Fold, name: string)
    requires IgnoresCase(fold)
    ensures GlobMatches(fold, ["identity", "privkey"], ["Identity", "PrivKey"])
    ensures GlobMatches(fold, ["PINNING", name, "key"], ["Pinning", "*", "Key"])
  {
    var upper, lower := "ABCDEFGHIJKLMNOPQRSTUVWXYZ", "abcdefghijklmnopqrstuvwxyz";
    forall i | 0 <= i < 26 ensures fold(upper[i]) == fold(lower[i]) {
    }
    assert fold(upper[8]) == fold('i') && fold(upper[15]) == fold('p') && fold(upper[10]) == fold('k');
    assert fold(upper[13]) == fold('n') && fold(upper[6]) == fold('g');
    assert EqualFold(fold, "Identity", "identity");
    assert EqualFold(fold, "PrivKey", "privkey");
    assert EqualFold(fold, "Pinning", "PINNING");
    assert EqualFold(fold, "Key", "key");
  }

  predicate PartMatches(fold: Fold, pattern: string, part: string) {
    pattern == "*" || EqualFold(fold, pattern, part)
  }

  // The first patterns match the first parts, as far as both go.
  predicate GlobMatches(fold: Fold, parts: seq<string>, glob: seq<string>) {
    forall i :: 0 <= i < |parts| && i < |glob| ==> PartMatches(fold, glob[i], parts[i])
  }

  // ---- Dotted keys ----

  function Split(s: string): seq<string> {
    if s == "" then [""]
    else if s[0] == '.' then [""] + Split(s[1..])
    else var rest := Split(s[1..]); [[s[0]] + rest[0]] + rest[1..]
  }

  function Dotted(parts: seq<string>): string
    requires parts != []
  {
    if |parts| == 1 then parts[0] else parts[0] + "." + Dotted(parts[1..])
  }

  lemma {:induction false} SplitPart(part: string, rest: string)
    requires '.' !in part
    ensures Split(part + "." + rest) == [part] + Split(rest)
    ensures Split(part) == [part]
  {
    if part == "" {
      assert part + "." + rest == "." + rest;
      assert ("." + rest)[1..] == rest;
    } else {
      SplitPart(part[1..], rest);
      assert (part + "." + rest)[1..] == part[1..] + "." + rest;
      assert [part[0]] + part[1..] == part;
    }
  }

  // Splitting a dotted key gives back its components.
  lemma {:induction false} SplitDotted(parts: seq<string>)
    requires parts != [] && forall p :: p in parts ==> '.' !in p
    ensures Split(Dotted(parts)) == parts
  {
    if |parts| == 1 {
      SplitPart(parts[0], "");
    } else {
      SplitDotted(parts[1..]);
      SplitPart(parts[0], Dotted(parts[1..]));
    }
  }

  lemma DottedCons(c: char, first: string, more: seq<string>)
    ensures Dotted([[c] + first] + more) == [c] + Dotted([first] + more)
    ensures Dotted([""] + ([first] + more)) == "." + Dotted([first] + more)
  {
    DottedStep([c] + first, more);
    DottedStep(first, more);
    DottedStep("", [first] + more);
    hide Dotted;
    if more != [] {
      assert ([c] + first) + "." + Dotted(more) == [c] + (first + "." + Dotted(more));
    }
  }

  lemma DottedStep(first: string, more: seq<string>)
    ensures Dotted([first] + more) == if more == [] then first else first + "." + Dotted(more)
  {
    assert ([first] + more)[1..] == more;
  }

  // No dot is lost: the components written with dots are the key again.
  lemma {:induction false} DottedSplit(s: string)
    ensures Split(s) != [] && Dotted(Split(s)) == s
    ensures forall p :: p in Split(s) ==> '.' !in p
  {
    hide Dotted;
    if s == "" {
      assert Dotted([""]) == "" by { SplitNothing(); }
    } else {
      DottedSplit(s[1..]);
      var rest := Split(s[1..]);
      assert rest == [rest[0]] + rest[1..];
      DottedCons(s[0], rest[0], rest[1..]);
      assert s == [s[0]] + s[1..];
    }
  }

  lemma SplitNothing()
    ensures Dotted([""]) == ""
  {
  }

  method MatchesGlobPrefix(fold: Fold, key: string, glob: seq<string>) returns (ok: bool)
    ensures ok <==> GlobMatches(fold, Split(key), glob)
  {
    var k := Split(key);
    for i := 0 to |glob|
      invariant forall j :: 0 <= j < i && j < |k| ==> PartMatches(fold, glob[j], k[j])
    {
      if i >= |k| { break; }
      if glob[i] == "*" { continue; }
      if !EqualFold(fold, k[i], glob[i]) { return false; }
    }
    ok := true;
  }

  // ---- Scrubbing ----

  // What the selector leaves of an object: a matching leaf goes, however much
  // of the selector is left; a matching object is scrubbed with the rest of
  // the selector, and emptied at its end.
  function Scrubbed(fold: Fold, m: map<string, Json>, key: seq<string>): map<string, Json>
    decreases |key|
  {
    if key == [] then map[]
    else
      map k | k in m && (PartMatches(fold, key[0], k) ==> m[k].Obj?) ::
        if PartMatches(fold, key[0], k) then Obj(Scrubbed(fold, m[k].fields, key[1..])) else m[k]
  }

  // A Go interface value: nil, or a map type holding a map or a nil map.
  datatype Interface = Nil | MapType(m: Option<map<string, Json>>)

  datatype Outcome<T> = Done(value: T) | MissingKey

  // The type assertion to a map: on failure it yields a nil map, not nil.
  function AsMap(u: Json): (r: (Option<map<string, Json>>, bool))
    ensures r.1 <==> r.0.Some?
  {
    if u.Obj? then (Some(u.fields), true) else (None, false)
  }

  // Fails exactly for a nil interface; a nil map in an interface is not one.
  method ScrubValueInternal(v: Interface, okIfMissing: bool) returns (res: Outcome<Option<Json>>)
    ensures res == if v.Nil? && !okIfMissing then MissingKey else Done(None)
  {
    if v.Nil? && !okIfMissing { return MissingKey; }
    res := Done(None);
  }

  // None is the source's nil: the value is dropped. The error branch of
  // ScrubValueInternal is never taken, whatever okIfMissing says.
  method ScrubEither(fold: Fold, u: Json, key: seq<string>, okIfMissing: bool) returns (res: Outcome<Option<Json>>)
    ensures res == Done(if u.Obj? then Some(Obj(Scrubbed(fold, u.fields, key))) else None)
    decreases |key|, 1
  {
    var m, ok := AsMap(u).0, AsMap(u).1;
    if ok {
      var n := ScrubMapInternal(fold, m.value, key, okIfMissing);
      return if n.Done? then Done(Some(Obj(n.value))) else MissingKey;
    }
    res := ScrubValueInternal(MapType(m), okIfMissing);
  }

  // Never fails, for any object, selector and okIfMissing.
  method ScrubMapInternal(fold: Fold, m: map<string, Json>, key: seq<string>, okIfMissing: bool)
    returns (res: Outcome<map<string, Json>>)
    ensures res == Done(Scrubbed(fold, m, key))
    decreases |key|, 0
  {
    var n: map<string, Json> := map[];
    if key == [] { return Done(n); }
    var todo := m.Keys;
    while todo != {}
      invariant todo <= m.Keys
      invariant n.Keys == Scrubbed(fold, m, key).Keys - todo
      invariant forall k :: k in n ==> n[k] == Scrubbed(fold, m, key)[k]
    {
      var k :| k in todo;
      todo := todo - {k};
      if PartMatches(fold, key[0], k) {
        var u := ScrubEither(fold, m[k], key[1..], okIfMissing);
        if u.MissingKey? { return MissingKey; }
        if u.value.Some? { n := n[k := u.value.value]; }
      } else {
        n := n[k := m[k]];
      }
    }
    assert n == Scrubbed(fold, m, key);
    res := Done(n);
  }

  // The selector finds something it can remove.
  predicate Finds(fold: Fold, m: map<string, Json>, key: seq<string>)
    decreases |key|
  {
    if key == [] then m != map[]
    else exists k :: k in m && PartMatches(fold, key[0], k) && (m[k].Obj? ==> Finds(fold, m[k].fields, key[1..]))
  }

  lemma {:induction false} ChangedIffFound(fold: Fold, m: map<string, Json>, key: seq<string>)
    ensures Scrubbed(fold, m, key) != m <==> Finds(fold, m, key)
    decreases |key|
  {
    if key != [] {
      var n := Scrubbed(fold, m, key);
      forall k | k in m && PartMatches(fold, key[0], k)
        ensures (k in n && n[k] == m[k]) <==> !(m[k].Obj? ==> Finds(fold, m[k].fields, key[1..]))
      {
        if m[k].Obj? { ChangedIffFound(fold, m[k].fields, key[1..]); }
      }
      if Finds(fold, m, key) {
        var k :| k in m && PartMatches(fold, key[0], k) && (m[k].Obj? ==> Finds(fold, m[k].fields, key[1..]));
        assert !(k in n && n[k] == m[k]);
      }
    }
  }

  // Documented to fail when the key is missing. It never does: when the
  // selector finds nothing, and only then, the object comes back unchanged.
  method ScrubValue(fold: Fold, m: map<string, Json>, key: seq<string>) returns (res: Outcome<map<string, Json>>)
    ensures res == Done(Scrubbed(fold, m, key))
    ensures res == Done(m) <==> !Finds(fold, m, key)
  {
    res := ScrubMapInternal(fold, m, key, false);
    ChangedIffFound(fold, m, key);
  }

  // ---- Scrubbing agrees with the glob, leaf by leaf ----

  function LeafAt(m: map<string, Json>, path: seq<string>): Option<string>
    decreases |path|
  {
    if path == [] || path[0] !in m then None
    else
      match m[path[0]]
      case Leaf(text) => if |path| == 1 then Some(text) else None
      case Obj(fields) => LeafAt(fields, path[1..])
  }

  lemma {:induction false} LeafScrubbed(fold: Fold, m: map<string, Json>, key: seq<string>, path: seq<string>)
    ensures LeafAt(Scrubbed(fold, m, key), path)
            == if GlobMatches(fold, path, key) then None else LeafAt(m, path)
    decreases |key|
  {
    if key != [] && path != [] && path[0] in m {
      if PartMatches(fold, key[0], path[0]) {
        assert GlobMatches(fold, path, key) <==> GlobMatches(fold, path[1..], key[1..]) by {
          GlobShift(fold, path, key);
        }
        if m[path[0]].Obj? { LeafScrubbed(fold, m[path[0]].fields, key[1..], path[1..]); }
      } else {
        assert !GlobMatches(fold, path, key);
      }
    }
  }

  lemma GlobShift(fold: Fold, parts: seq<string>, glob: seq<string>)
    requires parts != [] && glob != [] && PartMatches(fold, glob[0], parts[0])
    ensures GlobMatches(fold, parts, glob) <==> GlobMatches(fold, parts[1..], glob[1..])
  {
    if GlobMatches(fold, parts[1..], glob[1..]) {
      forall i | 0 <= i < |parts| && i < |glob| ensures PartMatches(fold, glob[i], parts[i]) {
        if i > 0 { assert PartMatches(fold, glob[1..][i - 1], parts[1..][i - 1]); }
      }
    }
    if GlobMatches(fold, parts, glob) {
      forall i | 0 <= i < |parts[1..]| && i < |glob[1..]| ensures PartMatches(fold, glob[1..][i], parts[1..][i]) {
        assert PartMatches(fold, glob[i + 1], parts[i + 1]);
      }
    }
  }

  // The same in terms of dotted keys, as the command line names settings.
  lemma ScrubFollowsGlob(fold: Fold, m: map<string, Json>, key: seq<string>, path: seq<string>)
    requires path != [] && forall p :: p in path ==> '.' !in p
    ensures LeafAt(Scrubbed(fold, m, key), path)
            == if GlobMatches(fold, Split(Dotted(path)), key) then None else LeafAt(m, path)
  {
    SplitDotted(path);
    LeafScrubbed(fold, m, key, path);
  }

  lemma {:induction false} ScrubIdempotent(fold: Fold, m: map<string, Json>, key: seq<string>)
    ensures Scrubbed(fold, Scrubbed(fold, m, key), key) == Scrubbed(fold, m, key)
    decreases |key|
  {
    if key != [] {
      forall k | k in m && m[k].Obj?
        ensures Scrubbed(fold, Scrubbed(fold, m[k].fields, key[1..]), key[1..]) == Scrubbed(fold, m[k].fields, key[1..])
      {
        ScrubIdempotent(fold, m[k].fields, key[1..]);
      }
    }
  }

  lemma {:induction false} ScrubsCommute(fold: Fold, m: map<string, Json>, a: seq<string>, b: seq<string>)
    ensures Scrubbed(fold, Scrubbed(fold, m, a), b) == Scrubbed(fold, Scrubbed(fold, m, b), a)
    decreases |a|
  {
    if a != [] && b != [] {
      forall k | k in m && m[k].Obj?
        ensures Scrubbed(fold, Scrubbed(fold, m[k].fields, a[1..]), b[1..])
             == Scrubbed(fold, Scrubbed(fold, m[k].fields, b[1..]), a[1..])
      {
        ScrubsCommute(fold, m[k].fields, a[1..], b[1..]);
      }
    }
  }
}
