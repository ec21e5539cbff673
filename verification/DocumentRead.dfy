/** `documents_read` of src/tools.ts: the walk along the parts of a path, one open handle at a time,
    the bounded read, and the closing of every handle. The file system may change at any moment. */
module DocumentRead {
  import opened Wrappers

  type Byte = b: int | 0 <= b < 256

  datatype Kind = Directory | Regular | Symlink | Special

  datatype Code = Denied | OutputTooLarge | NotFound | Cancelled

  datatype Result = Text(bytes: seq<Byte>) | Failure(code: Code)

  /** What the world does, by moment: the entry of a directory under a name, the content of a file,
      whether a system call fails anyway, how much a read delivers at most, and the signal. The kind
      of a file never changes, and the decoder accepts some byte strings. */
  datatype World = World(
    entry: (nat, nat, string) -> Option<nat>,
    kind: nat -> Kind,
    content: (nat, nat) -> seq<Byte>,
    fails: nat -> bool,
    grant: nat -> nat,
    aborted: nat -> bool,
    decodes: seq<Byte> -> bool)

  function Least(a: nat, b: nat): nat {
    if a < b then a else b
  }

  /** How many bytes a read at `position` delivers: none only at the end of the file. */
  function Delivered(w: World, at: nat, node: nat, position: nat, length: nat): (n: nat)
    ensures n <= length && (n > 0 ==> position + n <= |w.content(at, node)|)
    ensures n == 0 <==> length == 0 || position >= |w.content(at, node)|
  {
    var size := |w.content(at, node)|;
    if length == 0 || position >= size then 0
    else
      var most := Least(length, size - position);
      if w.grant(at) == 0 then 1 else Least(w.grant(at), most)
  }

  class FileHandle {
    const node: nat
    var position: nat
    var closes: nat

    constructor (n: nat)
      ensures node == n && position == 0 && closes == 0
    {
      node, position, closes := n, 0, 0;
    }

    /** A read into `buffer` from `offset` on, at the position of the handle. */
    method Read(w: World, at: nat, buffer: array<Byte>, offset: nat, length: nat) returns (bytesRead: nat)
      requires offset + length <= buffer.Length
      modifies `position, buffer
      ensures bytesRead == Delivered(w, at, node, old(position), length)
      ensures position == old(position) + bytesRead
      ensures buffer[..offset] == old(buffer[..offset])
      ensures bytesRead > 0 ==>
                buffer[offset..offset + bytesRead] == w.content(at, node)[old(position)..old(position) + bytesRead]
    {
      bytesRead := Delivered(w, at, node, position, length);
      var source, from := w.content(at, node), position;
      for i := 0 to bytesRead
        invariant buffer[..offset] == old(buffer[..offset])
        invariant bytesRead > 0 ==> buffer[offset..offset + i] == source[from..from + i]
        invariant position == from
      {
        buffer[offset + i] := source[from + i];
      }
      position := position + bytesRead;
    }

    method Close()
      modifies `closes
      ensures closes == old(closes) + 1
    {
      closes := closes + 1;
    }
  }

  // ----- paths -----

  function Split(path: string): (parts: seq<string>)
    ensures |parts| > 0
  {
    if path == "" then [""]
    else
      var rest := Split(path[1..]);
      if path[0] == '/' then [""] + rest else [[path[0]] + rest[0]] + rest[1..]
  }

  predicate Acceptable(path: string) {
    && (path == "" || path[0] != '/')
    && '\\' !in path
    && '\0' !in path
    && forall i | 0 <= i < |Split(path)| :: Split(path)[i] != "" && Split(path)[i][0] != '.'
  }

  // ----- what an open reaches -----

  /** An open by name under a directory handle never goes through a symbolic link, and reaches
      only a directory unless it is the last. */
  predicate Reaches(w: World, at: nat, from: nat, name: string, node: nat, last: bool) {
    && w.entry(at, from, name) == Some(node)
    && w.kind(node) != Symlink
    && (last || w.kind(node) == Directory)
  }

  predicate DeadEnd(w: World, at: nat, from: nat, name: string, last: bool) {
    var found := w.entry(at, from, name);
    found.None? || !Reaches(w, at, from, name, found.value, last)
  }

  function From(root: nat, trail: seq<nat>): nat {
    if trail == [] then root else trail[|trail| - 1]
  }

  /** `trail` leads from `root` along `parts`; its step `i` is one directory entry, at moment `i`. */
  ghost predicate Leads(w: World, root: nat, parts: seq<string>, trail: seq<nat>) {
    && |trail| <= |parts|
    && forall i | 0 <= i < |trail| ::
         Reaches(w, i, From(root, trail[..i]), parts[i], trail[i], i == |parts| - 1)
  }

  ghost predicate AllNew(handles: seq<FileHandle>) {
    forall i, j | 0 <= i < j < |handles| :: handles[i] != handles[j]
  }

  function Nodes(handles: seq<FileHandle>): (nodes: seq<nat>)
    ensures |nodes| == |handles|
  {
    seq(|handles|, i requires 0 <= i < |handles| => handles[i].node)
  }

  // ----- the tool -----

  /** The loop over the parts: `handles` collects the handles, also those handles before an error. */
  method OpenAll(root: FileHandle, parts: seq<string>, w: World) returns (handles: seq<FileHandle>, failed: bool)
    ensures forall h | h in handles :: fresh(h) && h.closes == 0 && h.position == 0
    ensures AllNew(handles) && Leads(w, root.node, parts, Nodes(handles))
    ensures !failed <==> |handles| == |parts|
    ensures failed ==>
              var at, from := |handles|, From(root.node, Nodes(handles));
              w.aborted(at) || w.fails(at)
              || DeadEnd(w, at, from, parts[at], at == |parts| - 1)
  {
    handles, failed := [], false;
    var parent := root;
    for index := 0 to |parts|
      invariant |handles| == index && !failed
      invariant parent.node == From(root.node, Nodes(handles))
      invariant forall h | h in handles :: fresh(h) && h.closes == 0 && h.position == 0
      invariant AllNew(handles) && Leads(w, root.node, parts, Nodes(handles))
    {
      var found := w.entry(index, parent.node, parts[index]);
      if w.aborted(index) || w.fails(index) || found.None? || w.kind(found.value) == Symlink
         || (index < |parts| - 1 && w.kind(found.value) != Directory) {
        failed := true;
        return;
      }
      var handle := new FileHandle(found.value);
      ghost var trail := Nodes(handles);
      handles := handles + [handle];
      assert Nodes(handles) == trail + [found.value];
      assert forall i | 0 <= i <= |trail| :: Nodes(handles)[..i] == trail[..i];
      parent := handle;
    }
  }

  // ----- what was read -----

  /** Byte `k` is the byte at place `k` of the file, at the moment `moments[k]`; the moments are in
      order and end by `last`. Between them the file may change in any way. */
  ghost predicate ReadFrom(w: World, node: nat, bytes: seq<Byte>, moments: seq<nat>, last: nat) {
    && |moments| == |bytes|
    && (forall k | 0 <= k < |bytes| :: ByteAt(w, node, bytes, moments, k))
    && (forall k | 0 <= k < |moments| :: moments[k] <= last)
    && (forall k, l | 0 <= k < l < |moments| :: moments[k] <= moments[l])
  }

  ghost predicate ByteAt(w: World, node: nat, bytes: seq<Byte>, moments: seq<nat>, k: nat)
    requires k < |bytes| == |moments|
  {
    k < |w.content(moments[k], node)| && bytes[k] == w.content(moments[k], node)[k]
  }

  lemma ReadMore(w: World, node: nat, bytes: seq<Byte>, moments: seq<nat>, last: nat, more: seq<Byte>, now: nat)
    requires ReadFrom(w, node, bytes, moments, last) && last <= now
    requires |bytes| + |more| <= |w.content(now, node)|
    requires more == w.content(now, node)[|bytes|..|bytes| + |more|]
    ensures ReadFrom(w, node, bytes + more, moments + Repeated(now, |more|), now)
  {
    var b, m := bytes + more, moments + Repeated(now, |more|);
    forall k | 0 <= k < |b|
      ensures ByteAt(w, node, b, m, k)
    {
      if k < |bytes| { assert ByteAt(w, node, bytes, moments, k); }
    }
  }

  function Repeated(now: nat, n: nat): (s: seq<nat>)
    ensures |s| == n && forall i | 0 <= i < n :: s[i] == now
  {
    seq(n, _ => now)
  }

  /** The end of the file was found at `last`. */
  ghost predicate Ended(w: World, node: nat, bytes: seq<Byte>, last: nat) {
    |w.content(last, node)| <= |bytes|
  }

  /** Content is only ever appended to the file. */
  ghost predicate AppendOnly(w: World, node: nat) {
    forall a: nat, b: nat | a <= b :: w.content(a, node) <= w.content(b, node)
  }

  /** Of a file that is only appended to, the whole content at `last` was read. */
  lemma WholeIfAppendOnly(w: World, node: nat, bytes: seq<Byte>, moments: seq<nat>, last: nat)
    requires ReadFrom(w, node, bytes, moments, last) && Ended(w, node, bytes, last) && AppendOnly(w, node)
    ensures bytes == w.content(last, node)
  {
    forall k | 0 <= k < |bytes|
      ensures k < |w.content(last, node)| && bytes[k] == w.content(last, node)[k]
    {
      assert ByteAt(w, node, bytes, moments, k);
      assert w.content(moments[k], node) <= w.content(last, node);
    }
    if bytes != [] {
      var k := |bytes| - 1;
      assert bytes[k] == w.content(last, node)[k];
    }
  }

  /** The loop of reads. `last` is the moment of the last one. */
  method ReadAll(w: World, file: FileHandle, maxBytes: nat, start: nat)
    returns (bytes: seq<Byte>, failed: bool, last: nat, ghost moments: seq<nat>)
    requires file.position == 0
    modifies file`position
    ensures failed ==> w.aborted(last) || w.fails(last)
    ensures !failed ==> ReadFrom(w, file.node, bytes, moments, last)
    ensures !failed ==> if |bytes| <= maxBytes then Ended(w, file.node, bytes, last) else |bytes| == maxBytes + 1
  {
    var buffer := new Byte[maxBytes + 1];
    var total, now := 0, start;
    bytes, failed, last, moments := [], false, start, [];
    assert buffer[..0] == [];
    while total < buffer.Length
      invariant total <= buffer.Length && file.position == total && last <= now && !failed
      invariant ReadFrom(w, file.node, buffer[..total], moments, last)
      decreases buffer.Length - total
    {
      if w.aborted(now) || w.fails(now) {
        failed, last := true, now;
        return;
      }
      ghost var before := buffer[..total];
      var bytesRead := file.Read(w, now, buffer, total, buffer.Length - total);
      if bytesRead == 0 {
        last := now;
        break;
      }
      ReadMore(w, file.node, before, moments, last, buffer[total..total + bytesRead], now);
      assert buffer[..total + bytesRead] == before + buffer[total..total + bytesRead];
      moments := moments + Repeated(now, bytesRead);
      last := now;
      total := total + bytesRead;
      now := now + 1;
    }
    bytes := buffer[..total];
  }

  // ----- the reference: an undisturbed walk over a file system at rest -----

  /** Nothing fails or is aborted, and the file system does not change. */
  ghost predicate Quiet(w: World) {
    && (forall at: nat :: !w.aborted(at) && !w.fails(at))
    && (forall at: nat, from: nat, name: string :: w.entry(at, from, name) == w.entry(0, from, name))
    && (forall at: nat, node: nat :: w.content(at, node) == w.content(0, node))
  }

  function Resolve(w: World, from: nat, parts: seq<string>): Option<nat>
    decreases |parts|
  {
    if parts == [] then Some(from)
    else
      match w.entry(0, from, parts[0])
      case None => None
      case Some(node) =>
        if Reaches(w, 0, from, parts[0], node, |parts| == 1) then Resolve(w, node, parts[1..]) else None
  }

  function ExpectedOf(w: World, node: nat, maxBytes: nat): Result {
    if w.kind(node) != Regular then Failure(Denied)
    else if |w.content(0, node)| > maxBytes then Failure(OutputTooLarge)
    else if w.decodes(w.content(0, node)) then Text(w.content(0, node))
    else Failure(NotFound)
  }

  function Expected(w: World, root: nat, path: string, maxBytes: nat): Result {
    if !Acceptable(path) then Failure(Denied) else ExpectedAt(w, root, Split(path), maxBytes)
  }

  function ExpectedAt(w: World, root: nat, parts: seq<string>, maxBytes: nat): Result {
    match Resolve(w, root, parts)
    case None => Failure(NotFound)
    case Some(node) => ExpectedOf(w, node, maxBytes)
  }

  lemma {:induction false} LeadsResolves(w: World, root: nat, parts: seq<string>, trail: seq<nat>)
    requires Quiet(w) && Leads(w, root, parts, trail)
    ensures Resolve(w, root, parts) == Resolve(w, From(root, trail), parts[|trail|..])
    decreases |trail|
  {
    if trail == [] {
      assert parts[0..] == parts;
    } else {
      var n := |trail| - 1;
      assert forall i | 0 <= i <= n :: trail[..n][..i] == trail[..i];
      LeadsResolves(w, root, parts, trail[..n]);
      assert Reaches(w, n, From(root, trail[..n]), parts[n], trail[n], n == |parts| - 1);
      assert parts[n..][1..] == parts[n + 1..];
    }
  }

  lemma WalkIsResolve(w: World, root: nat, parts: seq<string>, trail: seq<nat>)
    requires Quiet(w) && Leads(w, root, parts, trail)
    ensures |trail| == |parts| ==> Resolve(w, root, parts) == Some(From(root, trail))
    ensures |trail| < |parts| && DeadEnd(w, |trail|, From(root, trail), parts[|trail|], |trail| == |parts| - 1) ==>
              Resolve(w, root, parts) == None
  {
    LeadsResolves(w, root, parts, trail);
  }

  // ----- the whole invocation -----

  /** What a text means, for the node that the walk reached. */
  ghost predicate ReadsAll(w: World, node: nat, bytes: seq<Byte>, maxBytes: nat, moments: seq<nat>, last: nat) {
    && w.kind(node) == Regular
    && |bytes| <= maxBytes
    && w.decodes(bytes)
    && ReadFrom(w, node, bytes, moments, last)
    && Ended(w, node, bytes, last)
  }

  /** Why the node that the walk reached gives no text: the failing call, the read, or the length that
      was found is at `last` or before it. */
  ghost predicate NodeFails(w: World, node: nat, code: Code, maxBytes: nat, last: nat) {
    match code
    case Denied => w.kind(node) != Regular
    case OutputTooLarge => w.kind(node) == Regular && exists at: nat :: at <= last && |w.content(at, node)| > maxBytes
    case Cancelled => w.aborted(last)
    case NotFound => !w.aborted(last) && (w.fails(last) || Undecodable(w, node, maxBytes, last))
  }

  ghost predicate Undecodable(w: World, node: nat, maxBytes: nat, last: nat) {
    exists bytes, moments ::
      && |bytes| <= maxBytes && !w.decodes(bytes)
      && ReadFrom(w, node, bytes, moments, last) && Ended(w, node, bytes, last)
  }

  /** Why the walk stopped before the part after `trail`, at the moment of that part. */
  ghost predicate WalkFails(w: World, root: nat, parts: seq<string>, trail: seq<nat>, code: Code) {
    var at := |trail|;
    && at < |parts|
    && if w.aborted(at) then code == Cancelled
       else code == NotFound && (w.fails(at) || DeadEnd(w, at, From(root, trail), parts[at], at == |parts| - 1))
  }

  lemma QuietIsAppendOnly(w: World, node: nat)
    requires Quiet(w)
    ensures AppendOnly(w, node)
  {
    forall a: nat, b: nat | a <= b
      ensures w.content(a, node) <= w.content(b, node)
    {
      assert w.content(a, node) == w.content(0, node) && w.content(b, node) == w.content(0, node);
    }
  }

  /** In a file system at rest more than `maxBytes` bytes cannot be read from a shorter file. */
  lemma QuietReads(w: World, node: nat, bytes: seq<Byte>, moments: seq<nat>, last: nat, maxBytes: nat)
    requires Quiet(w) && ReadFrom(w, node, bytes, moments, last) && |w.content(0, node)| <= maxBytes
    requires if |bytes| <= maxBytes then Ended(w, node, bytes, last) else |bytes| == maxBytes + 1
    ensures bytes == w.content(0, node)
  {
    if bytes != [] {
      var k := |bytes| - 1;
      assert ByteAt(w, node, bytes, moments, k);
      assert w.content(moments[k], node) == w.content(0, node);
    }
    QuietIsAppendOnly(w, node);
    WholeIfAppendOnly(w, node, bytes, moments, last);
  }

  /** The part after the walk: the checks of `stat`, then the bounded read. */
  method ReadFile(file: FileHandle, maxBytes: nat, w: World, start: nat)
    returns (result: Result, last: nat, ghost moments: seq<nat>)
    requires file.position == 0
    modifies file`position
    ensures result.Text? ==> ReadsAll(w, file.node, result.bytes, maxBytes, moments, last)
    ensures result.Failure? ==> NodeFails(w, file.node, result.code, maxBytes, last)
    ensures Quiet(w) ==> result == ExpectedOf(w, file.node, maxBytes)
  {
    last, moments := start, [];
    if w.fails(start) {
      return Failure(Caught(w, start)), start, [];
    }
    if w.kind(file.node) != Regular {
      return Failure(Denied), start, [];
    }
    if |w.content(start, file.node)| > maxBytes {
      return Failure(OutputTooLarge), start, [];
    }
    var bytes, failed;
    bytes, failed, last, moments := ReadAll(w, file, maxBytes, start + 1);
    if Quiet(w) && !failed { QuietReads(w, file.node, bytes, moments, last, maxBytes); }
    if failed {
      result := Failure(Caught(w, last));
    } else if |bytes| > maxBytes {
      assert ByteAt(w, file.node, bytes, moments, maxBytes);
      result := Failure(OutputTooLarge);
    } else if w.decodes(bytes) {
      result := Text(bytes);
    } else {
      result := Failure(Caught(w, last));
    }
  }

  method CloseAll(handles: seq<FileHandle>)
    requires AllNew(handles)
    modifies handles
    ensures forall h | h in handles :: h.closes == old(h.closes) + 1
  {
    for i := 0 to |handles|
      invariant forall k | 0 <= k < i :: handles[k].closes == old(handles[k].closes) + 1
      invariant forall k | i <= k < |handles| :: handles[k].closes == old(handles[k].closes)
    {
      handles[i].Close();
    }
  }

  /** The code for an error that is not one of the runtime's own. */
  function Caught(w: World, at: nat): Code {
    if w.aborted(at) then Cancelled else NotFound
  }

  method OpenPath(root: FileHandle, parts: seq<string>, w: World)
    returns (handles: seq<FileHandle>, failure: Option<Code>)
    ensures forall h | h in handles :: fresh(h) && h.closes == 0 && h.position == 0
    ensures AllNew(handles) && Leads(w, root.node, parts, Nodes(handles))
    ensures failure.None? <==> |handles| == |parts|
    ensures Quiet(w) ==> Resolve(w, root.node, parts) ==
                           if failure.None? then Some(From(root.node, Nodes(handles))) else None
    ensures failure.Some? ==> WalkFails(w, root.node, parts, Nodes(handles), failure.value)
    ensures Quiet(w) && failure.Some? ==> failure.value == NotFound
  {
    var failed;
    handles, failed := OpenAll(root, parts, w);
    failure := if failed then Some(Caught(w, |handles|)) else None;
    if Quiet(w) { WalkIsResolve(w, root.node, parts, Nodes(handles)); }
  }

  method Attempt(root: FileHandle, parts: seq<string>, maxBytes: nat, w: World)
    returns (result: Result, handles: seq<FileHandle>, last: nat, ghost moments: seq<nat>)
    requires |parts| > 0
    ensures forall h | h in handles :: fresh(h) && h.closes == 0
    ensures AllNew(handles) && Leads(w, root.node, parts, Nodes(handles))
    ensures result.Text? ==>
              && |handles| == |parts|
              && ReadsAll(w, From(root.node, Nodes(handles)), result.bytes, maxBytes, moments, last)
    ensures result.Failure? ==>
              if |handles| < |parts| then WalkFails(w, root.node, parts, Nodes(handles), result.code)
              else NodeFails(w, From(root.node, Nodes(handles)), result.code, maxBytes, last)
    ensures Quiet(w) ==> result == ExpectedAt(w, root.node, parts, maxBytes)
  {
    var failure;
    handles, failure := OpenPath(root, parts, w);
    if failure.Some? {
      return Failure(failure.value), handles, 0, [];
    }
    var file := handles[|handles| - 1];
    assert file in handles;
    result, last, moments := ReadFile(file, maxBytes, w, |parts|);
  }

  /** A text has at most `maxBytes` bytes, each the one at its place in a regular file when it was
      read, and the last read found the end; the file is reached from the root by the entries that
      the path names, none of them a symbolic link. A failure has the code of what went wrong, on the
      walk or at the file. On every exit each handle has been closed exactly
      once; nothing else in the heap has changed. */
  method Invoke(root: FileHandle, path: string, maxBytes: nat, w: World)
    returns (result: Result, ghost handles: seq<FileHandle>, last: nat, ghost moments: seq<nat>)
    ensures AllNew(handles) && forall h | h in handles :: fresh(h) && h.closes == 1
    ensures !Acceptable(path) ==> result == Failure(Denied) && handles == []
    ensures Leads(w, root.node, Split(path), Nodes(handles))
    ensures result.Text? ==>
              && Acceptable(path) && |handles| == |Split(path)|
              && ReadsAll(w, From(root.node, Nodes(handles)), result.bytes, maxBytes, moments, last)
    ensures result.Failure? && Acceptable(path) ==>
              if |handles| < |Split(path)| then WalkFails(w, root.node, Split(path), Nodes(handles), result.code)
              else NodeFails(w, From(root.node, Nodes(handles)), result.code, maxBytes, last)
    ensures Quiet(w) ==> result == Expected(w, root.node, path, maxBytes)
  {
    if !Acceptable(path) {
      return Failure(Denied), [], 0, [];
    }
    var found;
    result, found, last, moments := Attempt(root, Split(path), maxBytes, w);
    handles := found;
    forall i | 0 <= i < |found|
      ensures fresh(found[i]) && found[i].closes == 0
    {
      assert found[i] in found;
    }
    CloseAll(found);
  }
}
