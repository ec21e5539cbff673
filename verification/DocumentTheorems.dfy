/** What the path, the walk and the result of `documents_read` mean, in characters, directory entries
    and bytes. */
module DocumentTheorems {
  import opened Wrappers
  import opened DocumentRead

  // ----- splitting a path -----

  function Join(parts: seq<string>): string
    requires |parts| > 0
  {
    if |parts| == 1 then parts[0] else parts[0] + "/" + Join(parts[1..])
  }

  /** The parts are the stretches between slashes: joined by slashes they give the path back, and none
      of them has one. */
  lemma {:induction false} SplitIsInverse(path: string)
    ensures Join(Split(path)) == path
    ensures forall i | 0 <= i < |Split(path)| :: '/' !in Split(path)[i]
  {
    if path != "" {
      var rest := Split(path[1..]);
      SplitIsInverse(path[1..]);
      assert path == [path[0]] + path[1..];
      if path[0] == '/' {
        assert ([""] + rest)[1..] == rest;
      } else {
        PrependJoins(path[0], rest);
      }
    }
  }

  lemma PrependJoins(c: char, rest: seq<string>)
    requires |rest| > 0
    ensures Join([[c] + rest[0]] + rest[1..]) == [c] + Join(rest)
  {
    if |rest| > 1 {
      var more := rest[1..];
      assert ([[c] + rest[0]] + more)[1..] == more;
      Regroup([c], rest[0], "/", Join(more));
    }
  }

  lemma Regroup(a: string, b: string, c: string, d: string)
    ensures a + b + c + d == a + (b + c + d)
  {
  }

  predicate PartOk(part: string) {
    part != "" && part[0] != '.'
  }

  predicate LaterPartsOk(parts: seq<string>) {
    forall i | 1 <= i < |parts| :: PartOk(parts[i])
  }

  /** After every slash comes a character that is neither a slash nor a dot. */
  predicate AfterSlashesOk(path: string) {
    forall i | 0 <= i < |path| && path[i] == '/' :: StartsPart(path, i + 1)
  }

  predicate StartsPart(path: string, i: nat) {
    i < |path| && path[i] != '/' && path[i] != '.'
  }

  lemma FirstPartOk(path: string)
    ensures PartOk(Split(path)[0]) <==> StartsPart(path, 0)
  {
  }

  lemma {:induction false} LaterPartsAre(path: string)
    ensures LaterPartsOk(Split(path)) <==> AfterSlashesOk(path)
  {
    if path != "" {
      var tail := path[1..];
      var parts, rest := Split(path), Split(tail);
      LaterPartsAre(tail);
      FirstPartOk(tail);
      assert forall i | 0 <= i <= |tail| :: StartsPart(tail, i) <==> StartsPart(path, i + 1);
      assert AfterSlashesOk(path) <==> (path[0] == '/' ==> StartsPart(path, 1)) && AfterSlashesOk(tail) by {
        AfterSlashesOfTail(path);
      }
      if path[0] == '/' {
        assert forall i | 0 <= i < |rest| :: parts[i + 1] == rest[i];
        assert LaterPartsOk(parts) <==> PartOk(rest[0]) && LaterPartsOk(rest) by { LaterOfShifted(parts, rest); }
      } else {
        assert forall i | 1 <= i < |rest| :: parts[i] == rest[i];
      }
    }
  }

  lemma LaterOfShifted(parts: seq<string>, rest: seq<string>)
    requires |rest| > 0 && |parts| == |rest| + 1 && forall i | 0 <= i < |rest| :: parts[i + 1] == rest[i]
    ensures LaterPartsOk(parts) <==> PartOk(rest[0]) && LaterPartsOk(rest)
  {
    if PartOk(rest[0]) && LaterPartsOk(rest) {
      forall i | 1 <= i < |parts|
        ensures PartOk(parts[i])
      {
        assert parts[i] == rest[i - 1];
      }
    }
    if LaterPartsOk(parts) {
      assert PartOk(parts[1]);
      forall i | 1 <= i < |rest|
        ensures PartOk(rest[i])
      {
        assert PartOk(parts[i + 1]);
      }
    }
  }

  lemma AfterSlashesOfTail(path: string)
    requires path != ""
    ensures AfterSlashesOk(path) <==> (path[0] == '/' ==> StartsPart(path, 1)) && AfterSlashesOk(path[1..])
  {
    var tail := path[1..];
    if AfterSlashesOk(path) {
      forall i | 0 <= i < |tail| && tail[i] == '/'
        ensures StartsPart(tail, i + 1)
      {
        assert path[i + 1] == '/';
      }
    }
    if (path[0] == '/' ==> StartsPart(path, 1)) && AfterSlashesOk(tail) {
      forall i | 0 <= i < |path| && path[i] == '/'
        ensures StartsPart(path, i + 1)
      {
        if i > 0 { assert tail[i - 1] == '/'; }
      }
    }
  }

  /** A path is acceptable if and only if it is not empty, does not begin or end with a slash, has no
      two slashes in a row, no backslash and no NUL, and every dot follows a character that is not a
      slash. */
  lemma AcceptableIff(path: string)
    ensures Acceptable(path) <==>
              && path != "" && path[0] != '/' && path[|path| - 1] != '/'
              && (forall i | 0 < i < |path| :: !(path[i - 1] == '/' && path[i] == '/'))
              && '\\' !in path && '\0' !in path
              && (forall i | 0 <= i < |path| && path[i] == '.' :: i > 0 && path[i - 1] != '/')
  {
    FirstPartOk(path);
    LaterPartsAre(path);
    assert (forall i | 0 <= i < |Split(path)| :: PartOk(Split(path)[i]))
      <==> PartOk(Split(path)[0]) && LaterPartsOk(Split(path));
    if Acceptable(path) {
      assert forall i | 0 <= i < |Split(path)| :: PartOk(Split(path)[i]);
      assert AfterSlashesOk(path);
      forall i | 0 < i < |path|
        ensures !(path[i - 1] == '/' && path[i] == '/') && (path[i] == '.' ==> path[i - 1] != '/')
      {
        if path[i - 1] == '/' { assert StartsPart(path, i - 1 + 1); }
      }
    }
    if StartsPart(path, 0) && AfterSlashesOk(path) {
      assert forall i | 0 <= i < |Split(path)| :: PartOk(Split(path)[i]);
    }
    if path != "" && path[0] != '/' && path[|path| - 1] != '/'
       && (forall i | 0 < i < |path| :: !(path[i - 1] == '/' && path[i] == '/'))
       && (forall i | 0 <= i < |path| && path[i] == '.' :: i > 0 && path[i - 1] != '/') {
      forall i | 0 <= i < |path| && path[i] == '/'
        ensures StartsPart(path, i + 1)
      {
        assert i + 1 < |path|;
        assert !(path[i + 1 - 1] == '/' && path[i + 1] == '/');
      }
    }
  }

  // ----- the walk -----

  /** Step `i` of a trail: the entry of the directory before it, not a symbolic link, and a directory
      unless it is the last. */
  predicate StepOf(w: World, at: nat, root: nat, parts: seq<string>, trail: seq<nat>, i: nat)
    requires i < |trail| <= |parts|
  {
    && w.entry(at, if i == 0 then root else trail[i - 1], parts[i]) == Some(trail[i])
    && w.kind(trail[i]) != Symlink
    && (i < |parts| - 1 ==> w.kind(trail[i]) == Directory)
  }

  /** What the walk of the tool promises of the nodes it opened, the `i`-th at moment `i`. */
  lemma LeadsMeans(w: World, root: nat, parts: seq<string>, trail: seq<nat>)
    ensures Leads(w, root, parts, trail) <==>
              |trail| <= |parts| && forall i | 0 <= i < |trail| :: StepOf(w, i, root, parts, trail, i)
  {
    if |trail| <= |parts| {
      forall i | 0 <= i < |trail|
        ensures Reaches(w, i, From(root, trail[..i]), parts[i], trail[i], i == |parts| - 1)
           <==> StepOf(w, i, root, parts, trail, i)
      {
        assert From(root, trail[..i]) == if i == 0 then root else trail[i - 1];
      }
    }
  }

  /** Why a walk stops by itself. */
  lemma DeadEndMeans(w: World, at: nat, from: nat, name: string, last: bool)
    ensures DeadEnd(w, at, from, name, last) <==>
              var found := w.entry(at, from, name);
              found.None? || w.kind(found.value) == Symlink || (!last && w.kind(found.value) != Directory)
  {
  }

  // ----- the result, undisturbed -----

  /** A trail in a file system at rest. */
  ghost predicate Trail(w: World, root: nat, parts: seq<string>, trail: seq<nat>) {
    |trail| <= |parts| && forall i | 0 <= i < |trail| :: StepOf(w, 0, root, parts, trail, i)
  }

  lemma {:induction false} TrailResolves(w: World, root: nat, parts: seq<string>, trail: seq<nat>)
    requires Trail(w, root, parts, trail) && |trail| == |parts| > 0
    ensures Resolve(w, root, parts) == Some(trail[|trail| - 1])
    decreases |parts|
  {
    var node := trail[0];
    assert StepOf(w, 0, root, parts, trail, 0);
    if |parts| > 1 {
      forall i | 0 <= i < |trail[1..]|
        ensures StepOf(w, 0, node, parts[1..], trail[1..], i)
      {
        assert StepOf(w, 0, root, parts, trail, i + 1);
      }
      TrailResolves(w, node, parts[1..], trail[1..]);
    } else {
      assert Resolve(w, node, parts[1..]) == Some(node);
    }
  }

  lemma {:induction false} ResolvedHasTrail(w: World, root: nat, parts: seq<string>) returns (trail: seq<nat>)
    requires Resolve(w, root, parts).Some?
    ensures Trail(w, root, parts, trail) && |trail| == |parts|
    decreases |parts|
  {
    if parts == [] {
      trail := [];
    } else {
      var node := w.entry(0, root, parts[0]).value;
      var rest := ResolvedHasTrail(w, node, parts[1..]);
      trail := [node] + rest;
      forall i | 0 <= i < |trail|
        ensures StepOf(w, 0, root, parts, trail, i)
      {
        if i > 0 { assert StepOf(w, 0, node, parts[1..], rest, i - 1); }
      }
    }
  }

  /** The undisturbed result. An acceptable path that leads to a regular file of at most `maxBytes`
      bytes that decode gives its content; a longer file, another kind of file, bytes that do not
      decode, and a path that leads nowhere each give their own code. */
  lemma ExpectedMeans(w: World, root: nat, path: string, maxBytes: nat)
    ensures !Acceptable(path) ==> Expected(w, root, path, maxBytes) == Failure(Denied)
    ensures forall trail | Acceptable(path) && Trail(w, root, Split(path), trail) && |trail| == |Split(path)| ::
              var node := trail[|trail| - 1];
              Expected(w, root, path, maxBytes) ==
                if w.kind(node) != Regular then Failure(Denied)
                else if |w.content(0, node)| > maxBytes then Failure(OutputTooLarge)
                else if !w.decodes(w.content(0, node)) then Failure(NotFound)
                else Text(w.content(0, node))
    ensures Acceptable(path) && (forall trail | Trail(w, root, Split(path), trail) :: |trail| < |Split(path)|) ==>
              Expected(w, root, path, maxBytes) == Failure(NotFound)
  {
    var parts := Split(path);
    forall trail | Acceptable(path) && Trail(w, root, parts, trail) && |trail| == |parts|
      ensures Resolve(w, root, parts) == Some(trail[|trail| - 1])
    {
      TrailResolves(w, root, parts, trail);
    }
    if Resolve(w, root, parts).Some? {
      var trail := ResolvedHasTrail(w, root, parts);
      assert Trail(w, root, parts, trail);
    }
  }
}
