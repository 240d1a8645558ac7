/** The streaming extractor of a tar archive: chunks arrive in any sizes, counters carry over
    what a chunk cut short. It is compared with a reader that sees the whole archive at once. */
module TarExtract {
  import opened Bytes
  import opened Outcomes
  import opened TarFormat

  /** What extraction has built: files and folders, and the links to make at the end. */
  datatype Tree = Tree(fs: Files, links: seq<(Name, Name)>)

  datatype Verdict = Extracted(tree: Tree) | Refused(error: Error)

  datatype Open = Open(path: Path, size: int, mode: int)

  /** What the next byte belongs to. */
  datatype Mode =
    | Header
    | Skip(payload: int, padding: int)
    | Body(file: Open, remaining: int)
    | Pad(count: int)

  datatype Core = Core(tree: Tree, mode: Mode)

  /** The result of one turn of the inner loop. */
  datatype Turn = Again(core: Core, buffer: Name) | Wait(core: Core, buffer: Name) | Stop(error: Error)

  const EMPTY := Core(Tree(map[], []), Header)

  function Min(a: int, b: int): int {
    if a < b then a else b
  }

  /** Slicing with the conventions of the source: a negative index counts from the end. */
  function From(s: Name, k: int): (r: Name)
    ensures |r| <= |s|
  {
    if k >= 0 then s[Min(k, |s|)..] else if -k <= |s| then s[|s| + k..] else s
  }

  function Upto(s: Name, k: int): Name {
    if k >= 0 then s[..Min(k, |s|)] else if -k <= |s| then s[..|s| + k] else []
  }

  function AfterPad(t: Tree, count: int): Core {
    Core(t, if count == 0 then Header else Pad(count))
  }

  function AfterSkip(t: Tree, payload: int, padding: int): Core {
    Core(t, if payload == 0 && padding == 0 then Header else Skip(payload, padding))
  }

  /** The header's effect: a refusal, or the state in which the bytes after it are read. */
  function Enter(destination: Path, t: Tree, header: Name): (r: Option<Core>)
    requires |header| == 512
    ensures r.Some? && r.value.mode.Body? ==> Decode(destination, header).File?
  {
    match Decode(destination, header)
    case Bad(_) => None
    case Pax(size) => Some(AfterSkip(t, size, Padding(size)))
    case Link(name, target) => Some(Core(t.(links := t.links + [(name, target)]), Header))
    case Directory(path) =>
      var fs := MkdirAll(t.fs, path);
      if fs.None? then None else Some(Core(t.(fs := fs.value), Header))
    case File(path, size, mode) =>
      var fs := Create(t.fs, path);
      if fs.None? then None else Some(Core(t.(fs := fs.value), Body(Open(path, size, mode), size)))
  }

  function EnterError(destination: Path, header: Name): Error
    requires |header| == 512
  {
    var e := Decode(destination, header);
    if e.Bad? then e.error else Storage
  }

  function Close(t: Tree, file: Open): Core {
    AfterPad(t.(fs := Chmod(t.fs, file.path, file.mode)), Padding(file.size))
  }

  function Rank(m: Mode): nat {
    match m
    case Header => 0
    case Skip(_, _) => 1
    case Pad(_) => 1
    case Body(_, _) => 2
  }

  /** One turn of the inner loop. */
  function Step(destination: Path, c: Core, buffer: Name): (r: Turn)
    ensures r.Again? ==> |r.buffer| <= |buffer| && (|r.buffer| == |buffer| ==> Rank(r.core.mode) < Rank(c.mode))
    ensures r.Wait? ==> |r.buffer| <= |buffer|
  {
    match c.mode
    case Skip(payload, padding) =>
      var count := Min(|buffer|, payload + padding);
      var taken := Min(count, payload);
      var next := AfterSkip(c.tree, payload - taken, padding - (count - taken));
      if next.mode.Header? then Again(next, From(buffer, count)) else Wait(next, From(buffer, count))
    case Pad(left) =>
      var count := Min(|buffer|, left);
      var next := AfterPad(c.tree, left - count);
      if next.mode.Header? then Again(next, From(buffer, count)) else Wait(next, From(buffer, count))
    case Header =>
      if |buffer| < 512 then Wait(c, buffer)
      else
        var header := buffer[..512];
        if AllZero(header) then Wait(c, buffer[512..])
        else
          var next := Enter(destination, c.tree, header);
          if next.None? then Stop(EnterError(destination, header)) else Again(next.value, buffer[512..])
    case Body(file, remaining) =>
      var count := Min(|buffer|, remaining);
      var t := if count == 0 then c.tree else c.tree.(fs := Append(c.tree.fs, file.path, Upto(buffer, count)));
      var rest := if count == 0 then buffer else From(buffer, count);
      if remaining - count != 0 then Wait(Core(t, Body(file, remaining - count)), rest)
      else Again(Close(t, file), rest)
  }

  /** The inner loop: turns until it must wait for more bytes or gives up. */
  function Drain(destination: Path, c: Core, buffer: Name): (r: Turn)
    ensures !r.Again?
    decreases |buffer|, Rank(c.mode)
  {
    var turn := Step(destination, c, buffer);
    if turn.Again? then Drain(destination, turn.core, turn.buffer) else turn
  }

  lemma DrainOnce(destination: Path, c: Core, buffer: Name)
    ensures var turn := Step(destination, c, buffer);
            Drain(destination, c, buffer)
            == if turn.Again? then Drain(destination, turn.core, turn.buffer) else turn
  {
    hide Step;
  }

  /** The outer loop over the chunks that are still to come. */
  function Feed(destination: Path, c: Core, buffer: Name, chunks: seq<Name>): (r: Turn)
    ensures !r.Again?
    decreases |chunks|
  {
    if |chunks| == 0 then Wait(c, buffer)
    else
      var turn := Drain(destination, c, buffer + chunks[0]);
      if turn.Stop? then turn else Feed(destination, turn.core, turn.buffer, chunks[1..])
  }

  lemma FeedNext(destination: Path, c: Core, buffer: Name, chunks: seq<Name>, i: nat)
    requires i < |chunks|
    ensures var turn := Drain(destination, c, buffer + chunks[i]);
            Feed(destination, c, buffer, chunks[i..])
            == if turn.Stop? then turn else Feed(destination, turn.core, turn.buffer, chunks[i + 1..])
  {
    hide Drain;
    assert chunks[i..][1..] == chunks[i + 1..];
  }

  lemma FeedEnd(destination: Path, c: Core, buffer: Name, chunks: seq<Name>)
    ensures Feed(destination, c, buffer, chunks[|chunks|..]) == Wait(c, buffer)
  {
  }

  function Finish(c: Core): Verdict {
    if c.mode.Header? then Extracted(c.tree) else Refused(Truncated)
  }

  function Extract(destination: Path, chunks: seq<Name>): Verdict {
    var turn := Feed(destination, EMPTY, [], chunks);
    if turn.Stop? then Refused(turn.error) else Finish(turn.core)
  }

  // ---------- The loops of the source ----------

  function CoreOf(fs: Files, links: seq<(Name, Name)>, current: Option<Open>, remaining: int,
                  paxPayload: int, paxPadding: int, filePadding: int): Core {
    Core(Tree(fs, links),
         if paxPayload != 0 || paxPadding != 0 then Skip(paxPayload, paxPadding)
         else if filePadding != 0 then Pad(filePadding)
         else if current.Some? then Body(current.value, remaining)
         else Header)
  }

  /** The counters of one kind of carry-over are zero while another is in use. */
  predicate Exclusive(current: Option<Open>, paxPayload: int, paxPadding: int, filePadding: int) {
    && (paxPayload != 0 || paxPadding != 0 ==> filePadding == 0 && current.None?)
    && (filePadding != 0 ==> current.None?)
  }

  /** A header is read: its entry is refused, noted, made, or opened for the bytes that follow. */
  method EnterHeader(destination: Path, fs0: Files, links0: seq<(Name, Name)>, header: Name)
    returns (refused: Option<Error>, fs: Files, links: seq<(Name, Name)>, current: Option<Open>, remaining: int,
             paxPayload: int, paxPadding: int)
    requires |header| == 512
    ensures Exclusive(current, paxPayload, paxPadding, 0)
    ensures Enter(destination, Tree(fs0, links0), header)
            == if refused.Some? then None
               else Some(CoreOf(fs, links, current, remaining, paxPayload, paxPadding, 0))
    ensures refused.Some? ==> refused.value == EnterError(destination, header)
  {
    refused, fs, links, current, remaining, paxPayload, paxPadding := None, fs0, links0, None, 0, 0, 0;
    match Decode(destination, header) {
      case Bad(error) =>
        refused := Some(error);
      case Pax(size) =>
        paxPayload, paxPadding := size, Padding(size);
      case Link(name, target) =>
        links := links + [(name, target)];
      case Directory(path) =>
        var made := MkdirAll(fs, path);
        if made.Some? { fs := made.value; } else { refused := Some(Storage); }
      case File(path, size, mode) =>
        var created := Create(fs, path);
        if created.Some? {
          fs, current, remaining := created.value, Some(Open(path, size, mode)), size;
        } else {
          refused := Some(Storage);
        }
    }
  }

  method ExtractTarGz(destination: Path, chunks: seq<Name>) returns (v: Verdict)
    ensures v == Extract(destination, chunks)
  {
    hide Enter, EnterError, Append, Chmod, Padding, From, Upto, AllZero, Feed, Drain;
    var buffered: Name := [];
    var fs: Files, links: seq<(Name, Name)> := map[], [];
    var current: Option<Open>, remaining: int := None, 0;
    var paxPayload: int, paxPadding: int, filePadding: int := 0, 0, 0;
    for i := 0 to |chunks|
      invariant Exclusive(current, paxPayload, paxPadding, filePadding)
      invariant Feed(destination, CoreOf(fs, links, current, remaining, paxPayload, paxPadding, filePadding),
                     buffered, chunks[i..])
             == Feed(destination, EMPTY, [], chunks)
    {
      FeedNext(destination, CoreOf(fs, links, current, remaining, paxPayload, paxPadding, filePadding),
               buffered, chunks, i);
      buffered := buffered + chunks[i];
      ghost var drained := Drain(destination,
        CoreOf(fs, links, current, remaining, paxPayload, paxPadding, filePadding), buffered);
      while true
        invariant Exclusive(current, paxPayload, paxPadding, filePadding)
        invariant drained == Drain(destination,
          CoreOf(fs, links, current, remaining, paxPayload, paxPadding, filePadding), buffered)
        decreases |buffered|, Rank(CoreOf(fs, links, current, remaining, paxPayload, paxPadding, filePadding).mode)
      {
        DrainOnce(destination, CoreOf(fs, links, current, remaining, paxPayload, paxPadding, filePadding), buffered);
        if paxPayload != 0 || paxPadding != 0 {
          var count := Min(|buffered|, paxPayload + paxPadding);
          var payloadCount := Min(count, paxPayload);
          buffered := From(buffered, count);
          paxPayload := paxPayload - payloadCount;
          paxPadding := paxPadding - (count - payloadCount);
          if paxPayload != 0 || paxPadding != 0 { break; }
          continue;
        }
        if filePadding != 0 {
          var count := Min(|buffered|, filePadding);
          buffered := From(buffered, count);
          filePadding := filePadding - count;
          if filePadding != 0 { break; }
          continue;
        }
        if current.None? {
          if |buffered| < 512 { break; }
          var header := buffered[..512];
          buffered := buffered[512..];
          if AllZero(header) { break; }
          var refused: Option<Error>;
          refused, fs, links, current, remaining, paxPayload, paxPadding :=
            EnterHeader(destination, fs, links, header);
          if refused.Some? { return Refused(refused.value); }
          if current.None? { continue; }
          DrainOnce(destination, CoreOf(fs, links, current, remaining, 0, 0, 0), buffered);
        }
        var count := Min(|buffered|, remaining);
        if count != 0 {
          fs := Append(fs, current.value.path, Upto(buffered, count));
          buffered := From(buffered, count);
          remaining := remaining - count;
        }
        if remaining != 0 { break; }
        fs := Chmod(fs, current.value.path, current.value.mode);
        filePadding := Padding(current.value.size);
        current := None;
      }
    }
    FeedEnd(destination, CoreOf(fs, links, current, remaining, paxPayload, paxPadding, filePadding), buffered, chunks);
    if current.Some? || paxPayload != 0 || paxPadding != 0 || filePadding != 0 { return Refused(Truncated); }
    return Extracted(Tree(fs, links));
  }
}
