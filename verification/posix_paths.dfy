/** Lexical normalisation of POSIX paths, as pathlib parses and the scope rules
    resolve them. */
module PosixPaths {
  import opened Outcomes
  import PythonText

  /** `anchor` is "" for a relative path, "/" or, for exactly two leading
      slashes, "//". */
  datatype Path = Path(anchor: string, names: seq<string>) {
    function Parts(): seq<string> {
      if anchor == "" then names else [anchor] + names
    }
  }

  datatype PathError = EmptyPath | NulByte | NotAbsolute | AboveRoot | NotAllowed

  // ----- Splitting and joining -------------------------------------------------------

  /** `s.split("/")`. */
  function Split(s: string): (r: seq<string>)
    ensures r != []
    ensures forall i :: 0 <= i < |r| ==> '/' !in r[i]
    ensures forall i, c :: 0 <= i < |r| && c in r[i] ==> c in s
  {
    if s == "" then [""]
    else
      var rest := Split(s[1..]);
      assert forall c :: c in s[1..] ==> c in s;
      if s[0] == '/' then [""] + rest else [[s[0]] + rest[0]] + rest[1..]
  }

  function Join(names: seq<string>): string {
    if names == [] then "" else if |names| == 1 then names[0] else names[0] + "/" + Join(names[1..])
  }

  lemma {:induction false} SplitWhole(a: string)
    requires '/' !in a
    ensures Split(a) == [a]
  {
    if a != "" {
      assert forall c :: c in a[1..] ==> c in a;
      SplitWhole(a[1..]);
      assert [a[0]] + a[1..] == a;
    }
  }

  lemma {:induction false} SplitFirst(a: string, b: string)
    requires '/' !in a
    ensures Split(a + "/" + b) == [a] + Split(b)
  {
    var s := a + "/" + b;
    if a == "" {
      assert s[1..] == b;
    } else {
      assert forall c :: c in a[1..] ==> c in a;
      SplitFirst(a[1..], b);
      assert s[1..] == a[1..] + "/" + b;
      assert [a[0]] + a[1..] == a;
    }
  }

  lemma {:induction false} SplitJoin(names: seq<string>)
    requires names != [] && forall i :: 0 <= i < |names| ==> '/' !in names[i]
    ensures Split(Join(names)) == names
  {
    if |names| == 1 {
      SplitWhole(names[0]);
    } else {
      SplitJoin(names[1..]);
      SplitFirst(names[0], Join(names[1..]));
    }
  }

  // ----- Parsing ------------------------------------------------------------------------

  predicate IsDot(part: string) {
    part == "" || part == "."
  }

  /** A name that can be stepped into: not empty, no dots, no slash. */
  predicate IsName(part: string) {
    part != "" && part != "." && part != ".." && '/' !in part
  }

  predicate Clean(names: seq<string>) {
    forall i :: 0 <= i < |names| ==> IsName(names[i])
  }

  function WithoutDots(parts: seq<string>): (r: seq<string>)
    ensures forall i :: 0 <= i < |r| ==> r[i] in parts && !IsDot(r[i])
  {
    if parts == [] then []
    else (if IsDot(parts[0]) then [] else [parts[0]]) + WithoutDots(parts[1..])
  }

  function Anchor(raw: string): string {
    if raw == "" || raw[0] != '/' then ""
    else if |raw| >= 2 && raw[1] == '/' && (|raw| == 2 || raw[2] != '/') then "//"
    else "/"
  }

  function Components(raw: string): seq<string> {
    Split(raw[|Anchor(raw)|..])
  }

  /** `PurePosixPath(raw)`. */
  function Parse(raw: string): Path {
    Path(Anchor(raw), WithoutDots(Components(raw)))
  }

  /** `str(path)`. */
  function Render(p: Path): string {
    p.anchor + Join(p.names)
  }

  lemma {:induction false} CleanStays(names: seq<string>)
    requires Clean(names)
    ensures WithoutDots(names) == names
  {
    if names != [] {
      CleanStays(names[1..]);
    }
  }

  lemma JoinStartsWithName(names: seq<string>)
    requires Clean(names) && names != []
    ensures Join(names) != "" && Join(names)[0] != '/'
  {
  }

  /** Printing a clean absolute path and parsing it again gives it back. */
  lemma ParseRender(p: Path)
    requires p.anchor in {"/", "//"} && Clean(p.names)
    ensures Parse(Render(p)) == p
  {
    var s := Render(p);
    if p.names != [] {
      JoinStartsWithName(p.names);
      SplitJoin(p.names);
    } else {
      assert Split("") == [""];
      assert WithoutDots([""]) == [];
    }
    assert Anchor(s) == p.anchor;
    assert s[|p.anchor|..] == Join(p.names);
    CleanStays(p.names);
  }

  // ----- Resolving dots -------------------------------------------------------------------

  /** Names pushed on, ".." popping off; `None` above the root. */
  function Resolve(stack: seq<string>, names: seq<string>): Option<seq<string>>
    decreases |names|
  {
    if names == [] then Some(stack)
    else if IsDot(names[0]) then Resolve(stack, names[1..])
    else if names[0] == ".." then
      if stack == [] then None else Resolve(stack[..|stack| - 1], names[1..])
    else Resolve(stack + [names[0]], names[1..])
  }

  /** What `normalize_path` returns on POSIX. */
  function Normalize(raw: string): Result<Path, PathError> {
    if PythonText.Blank(raw) then Err(EmptyPath)
    else if '\0' in raw then Err(NulByte)
    else if Anchor(raw) == "" then Err(NotAbsolute)
    else
      match Resolve([], Parse(raw).names)
      case None => Err(AboveRoot)
      case Some(names) => Ok(Path(Anchor(raw), names))
  }

  method NormalizePath(raw: string) returns (r: Result<Path, PathError>)
    ensures r == Normalize(raw)
  {
    if PythonText.Blank(raw) { return Err(EmptyPath); }
    if '\0' in raw { return Err(NulByte); }
    var candidate := Parse(raw);
    if candidate.anchor == "" { return Err(NotAbsolute); }
    var parts := candidate.Parts()[1..];
    var resolved: seq<string> := [];
    for i := 0 to |parts|
      invariant Resolve(resolved, parts[i..]) == Resolve([], parts)
    {
      var part := parts[i];
      assert parts[i..][1..] == parts[i + 1..];
      if IsDot(part) { continue; }
      if part == ".." {
        if resolved == [] { return Err(AboveRoot); }
        resolved := resolved[..|resolved| - 1];
        continue;
      }
      resolved := resolved + [part];
    }
    return Ok(Path(candidate.anchor, resolved));
  }

  lemma {:induction false} ResolveIsClean(stack: seq<string>, names: seq<string>)
    requires Clean(stack) && forall i :: 0 <= i < |names| ==> '/' !in names[i]
    ensures Resolve(stack, names).Some? ==> Clean(Resolve(stack, names).value)
    decreases |names|
  {
    if names != [] {
      if IsDot(names[0]) {
        ResolveIsClean(stack, names[1..]);
      } else if names[0] == ".." {
        if stack != [] { ResolveIsClean(stack[..|stack| - 1], names[1..]); }
      } else {
        ResolveIsClean(stack + [names[0]], names[1..]);
      }
    }
  }

  lemma {:induction false} ResolveClean(stack: seq<string>, names: seq<string>)
    requires Clean(names)
    ensures Resolve(stack, names) == Some(stack + names)
    decreases |names|
  {
    if names != [] {
      assert IsName(names[0]);
      ResolveClean(stack + [names[0]], names[1..]);
      assert stack + [names[0]] + names[1..] == stack + names;
    } else {
      assert stack + names == stack;
    }
  }

  /** Every name of the result is one of the components given. */
  lemma {:induction false} ResolveInventsNothing(stack: seq<string>, names: seq<string>)
    ensures var r := Resolve(stack, names);
            r.Some? ==> forall i :: 0 <= i < |r.value| ==> r.value[i] in stack || r.value[i] in names
    decreases |names|
  {
    if names != [] {
      if IsDot(names[0]) {
        ResolveInventsNothing(stack, names[1..]);
      } else if names[0] == ".." {
        if stack != [] { ResolveInventsNothing(stack[..|stack| - 1], names[1..]); }
      } else {
        ResolveInventsNothing(stack + [names[0]], names[1..]);
      }
    }
  }

  lemma {:induction false} DotsDoNotMatter(stack: seq<string>, components: seq<string>)
    ensures Resolve(stack, WithoutDots(components)) == Resolve(stack, components)
    decreases |components|
  {
    if components != [] {
      var first, rest := components[0], components[1..];
      var kept := WithoutDots(components);
      if IsDot(first) {
        assert kept == WithoutDots(rest);
        DotsDoNotMatter(stack, rest);
      } else {
        assert kept[0] == first && kept[1..] == WithoutDots(rest);
        if first == ".." {
          if stack != [] { DotsDoNotMatter(stack[..|stack| - 1], rest); }
        } else {
          DotsDoNotMatter(stack + [first], rest);
        }
      }
    }
  }

  /** How far below the start these components end: each name down, each ".." up. */
  function Depth(components: seq<string>): int {
    if components == [] then 0 else Move(components[0]) + Depth(components[1..])
  }

  function Move(component: string): int {
    if component == "" || component == "." then 0 else if component == ".." then -1 else 1
  }

  ghost predicate NeverAbove(start: int, components: seq<string>) {
    forall i :: 0 <= i <= |components| ==> start + Depth(components[..i]) >= 0
  }

  lemma NeverAboveTail(start: int, components: seq<string>)
    requires components != []
    ensures NeverAbove(start, components) <==>
              start >= 0 && NeverAbove(start + Move(components[0]), components[1..])
  {
    var rest, d := components[1..], Move(components[0]);
    forall i | 0 <= i <= |rest| ensures Depth(components[..i + 1]) == d + Depth(rest[..i]) {
      assert components[..i + 1][1..] == rest[..i];
    }
    if start >= 0 && NeverAbove(start + d, rest) {
      forall i | 0 <= i <= |components| ensures start + Depth(components[..i]) >= 0 {
        if i > 0 { assert start + d + Depth(rest[..i - 1]) >= 0; }
      }
    } else if NeverAbove(start, components) {
      assert start + Depth(components[..0]) >= 0;
      forall i | 0 <= i <= |rest| ensures start + d + Depth(rest[..i]) >= 0 {
        assert start + Depth(components[..i + 1]) >= 0;
      }
    }
  }

  /** Resolving fails exactly when some prefix climbs above the root, and
      otherwise ends as deep as the components say. */
  lemma {:induction false} ResolvesExactly(stack: seq<string>, components: seq<string>)
    ensures Resolve(stack, components).Some? <==> NeverAbove(|stack|, components)
    ensures Resolve(stack, components).Some? ==> |Resolve(stack, components).value| == |stack| + Depth(components)
    decreases |components|
  {
    if components == [] {
      assert components[..0] == [];
    } else {
      NeverAboveTail(|stack|, components);
      var first, rest := components[0], components[1..];
      if IsDot(first) {
        ResolvesExactly(stack, rest);
      } else if first == ".." {
        if stack == [] {
          assert rest[..0] == [];
        } else {
          ResolvesExactly(stack[..|stack| - 1], rest);
        }
      } else {
        ResolvesExactly(stack + [first], rest);
      }
    }
  }

  /** Exactly the absolute paths without NUL that never climb above the root are
      accepted; two leading slashes, and only two, are kept apart from one. */
  lemma NormalizesExactly(raw: string)
    ensures Normalize(raw).Ok? <==> "/" <= raw && '\0' !in raw && NeverAbove(0, Components(raw))
    ensures Normalize(raw).Ok? ==>
              && Normalize(raw).value.anchor == (if "//" <= raw && !("///" <= raw) then "//" else "/")
              && |Normalize(raw).value.names| == Depth(Components(raw))
  {
    DotsDoNotMatter([], Components(raw));
    ResolvesExactly([], Components(raw));
    assert "/" <= raw <==> raw != "" && raw[0] == '/';
    assert "/" <= raw ==> !PythonText.IsSpace('/') && '/' in raw;
    hide Resolve, NeverAbove, Components, Depth, WithoutDots;
  }

  /** A normalised path is absolute, has no dot components and repeats no slash. */
  lemma NormalizedIsClean(raw: string)
    ensures Normalize(raw).Ok? ==>
              Normalize(raw).value.anchor in {"/", "//"} && Clean(Normalize(raw).value.names)
  {
    forall i | 0 <= i < |Parse(raw).names| ensures '/' !in Parse(raw).names[i] {
      assert Parse(raw).names[i] in Components(raw);
    }
    ResolveIsClean([], Parse(raw).names);
  }

  lemma {:induction false} JoinChars(names: seq<string>, c: char)
    requires forall i :: 0 <= i < |names| ==> c !in names[i]
    requires c != '/'
    ensures c !in Join(names)
  {
    if |names| > 1 {
      JoinChars(names[1..], c);
    }
  }

  /** Normalising is idempotent: a normalised path, printed, normalises to itself. */
  lemma NormalizeIsIdempotent(raw: string)
    ensures Normalize(raw).Ok? ==> Normalize(Render(Normalize(raw).value)) == Normalize(raw)
  {
    if Normalize(raw).Ok? {
      var p := Normalize(raw).value;
      NormalizedIsClean(raw);
      ParseRender(p);
      ResolveClean([], p.names);
      NoNul(raw);
      assert Render(p)[0] == '/' && Render(p)[0] in Render(p);
      assert [] + p.names == p.names;
    }
  }

  lemma NoNul(raw: string)
    requires Normalize(raw).Ok?
    ensures '\0' !in Render(Normalize(raw).value)
  {
    var p := Normalize(raw).value;
    ResolveInventsNothing([], Parse(raw).names);
    var rel := raw[|Anchor(raw)|..];
    assert forall c :: c in rel ==> c in raw;
    forall i | 0 <= i < |p.names| ensures '\0' !in p.names[i] {
      assert p.names[i] in Parse(raw).names;
      assert p.names[i] in Split(rel);
    }
    JoinChars(p.names, '\0');
  }
}
