/** A directory tree without symbolic links, and why resolving dots lexically is
    right in it. */
module PathWalk {
  import opened Outcomes
  import opened PosixPaths

  datatype Entry = File(content: string) | Directory(entries: map<string, Entry>)

  /** The entry reached from the root by these child steps. */
  function Lookup(tree: Entry, steps: seq<string>): Option<Entry> {
    if steps == [] then Some(tree)
    else
      match Lookup(tree, steps[..|steps| - 1])
      case Some(Directory(entries)) =>
        if steps[|steps| - 1] in entries then Some(entries[steps[|steps| - 1]]) else None
      case _ => None
  }

  predicate IsDirectory(tree: Entry, steps: seq<string>) {
    Lookup(tree, steps).Some? && Lookup(tree, steps).value.Directory?
  }

  /** Path resolution by the kernel: every component, dots included, is looked up
      in a directory; ".." of the root is the root. */
  function Walk(tree: Entry, at: seq<string>, components: seq<string>): Option<seq<string>>
    decreases |components|
  {
    if components == [] then Some(at)
    else if !IsDirectory(tree, at) then None
    else if IsDot(components[0]) then Walk(tree, at, components[1..])
    else if components[0] == ".." then
      Walk(tree, if at == [] then [] else at[..|at| - 1], components[1..])
    else if Lookup(tree, at + [components[0]]).Some? then Walk(tree, at + [components[0]], components[1..])
    else None
  }

  lemma ParentExists(tree: Entry, at: seq<string>)
    requires Lookup(tree, at).Some? && at != []
    ensures IsDirectory(tree, at[..|at| - 1])
  {
  }

  /** Where a walk succeeds, the lexical result is the place it reached. */
  lemma {:induction false} WalkFollowsResolve(tree: Entry, at: seq<string>, components: seq<string>)
    requires Lookup(tree, at).Some?
    ensures var w, r := Walk(tree, at, components), Resolve(at, components);
            w.Some? ==> Lookup(tree, w.value).Some? && (r.Some? ==> r == w)
    decreases |components|
  {
    if components != [] && IsDirectory(tree, at) {
      var first, rest := components[0], components[1..];
      if IsDot(first) {
        WalkFollowsResolve(tree, at, rest);
      } else if first == ".." {
        if at == [] {
          WalkFollowsResolve(tree, at, rest);
        } else {
          ParentExists(tree, at);
          WalkFollowsResolve(tree, at[..|at| - 1], rest);
        }
      } else if Lookup(tree, at + [first]).Some? {
        WalkFollowsResolve(tree, at + [first], rest);
      }
    }
  }

  /** Clean names lead exactly where they say, when something is there. */
  lemma {:induction false} CleanWalkArrives(tree: Entry, at: seq<string>, names: seq<string>)
    requires Clean(names) && Lookup(tree, at + names).Some?
    ensures Walk(tree, at, names) == Some(at + names)
    decreases |names|
  {
    if names == [] {
      assert at + names == at;
    } else {
      var next := at + [names[0]];
      assert next + names[1..] == at + names;
      PrefixExists(tree, next, names[1..]);
      assert next[..|next| - 1] == at;
      assert IsName(names[0]);
      CleanWalkArrives(tree, next, names[1..]);
    }
  }

  lemma {:induction false} PrefixExists(tree: Entry, at: seq<string>, names: seq<string>)
    requires Lookup(tree, at + names).Some?
    ensures Lookup(tree, at).Some?
    decreases |names|
  {
    if names == [] {
      assert at + names == at;
    } else {
      var n := |names| - 1;
      assert (at + names)[..|at + names| - 1] == at + names[..n];
      PrefixExists(tree, at, names[..n]);
    }
  }

  /** Whenever walking the raw path succeeds in a tree without symbolic links,
      the normalised path reaches the same place. */
  lemma NormalizedReachesSamePlace(tree: Entry, raw: string)
    ensures Normalize(raw).Ok? && Walk(tree, [], Components(raw)).Some? ==>
              Walk(tree, [], Normalize(raw).value.names) == Walk(tree, [], Components(raw))
  {
    if Normalize(raw).Ok? && Walk(tree, [], Components(raw)).Some? {
      var p := Normalize(raw).value;
      DotsDoNotMatter([], Components(raw));
      WalkFollowsResolve(tree, [], Components(raw));
      NormalizedIsClean(raw);
      assert [] + p.names == p.names;
      CleanWalkArrives(tree, [], p.names);
    }
  }
}
