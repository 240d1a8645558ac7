/** The streaming extractor against a reader that holds the whole archive: when the two agree
    for every way of cutting the archive into chunks, and why they sometimes do not. */
module TarRefinement {
  import opened Bytes
  import opened Outcomes
  import opened TarFormat
  import opened TarExtract

  // ---------- The whole-archive reader ----------

  /** One unit of an archive: a header, the data after it, or a run of padding. */
  datatype Unit = Next(core: Core, rest: Name) | End(verdict: Verdict)

  predicate ModeOk(m: Mode) {
    match m
    case Header => true
    case Skip(payload, padding) => payload >= 0 && padding >= 0
    case Pad(count) => count >= 0
    case Body(_, remaining) => remaining >= 0
  }

  function Jump(t: Tree, data: Name, n: nat, next: Core): Unit {
    if |data| < n then End(Refused(Truncated)) else Next(next, data[n..])
  }

  function ReadUnit(destination: Path, c: Core, data: Name): (u: Unit)
    requires ModeOk(c.mode)
    ensures u.Next? ==> |u.rest| < |data| || (|u.rest| == |data| && Rank(u.core.mode) < Rank(c.mode))
  {
    match c.mode
    case Skip(payload, padding) => Jump(c.tree, data, payload + padding, Core(c.tree, Header))
    case Pad(count) => Jump(c.tree, data, count, Core(c.tree, Header))
    case Body(file, remaining) =>
      if |data| < remaining then End(Refused(Truncated))
      else Next(Close(c.tree.(fs := Append(c.tree.fs, file.path, data[..remaining])), file), data[remaining..])
    case Header =>
      if |data| < 512 then End(Extracted(c.tree))
      else if AllZero(data[..512]) then Next(c, data[512..])
      else
        var next := Enter(destination, c.tree, data[..512]);
        if next.None? then End(Refused(EnterError(destination, data[..512]))) else Next(next.value, data[512..])
  }

  /** No header on the way claims a negative size. */
  predicate NonNegative(destination: Path, c: Core, data: Name)
    decreases |data|, Rank(c.mode)
  {
    && ModeOk(c.mode)
    && var u := ReadUnit(destination, c, data);
    && (u.Next? ==> NonNegative(destination, u.core, u.rest))
  }

  predicate AtZero(c: Core, data: Name) {
    c.mode.Header? && |data| >= 512 && AllZero(data[..512])
  }

  /** Reads unit by unit. The first zero header ends the archive, unless the reader goes on. */
  function Read(destination: Path, goOn: bool, c: Core, data: Name): Verdict
    requires NonNegative(destination, c, data)
    decreases |data|, Rank(c.mode)
  {
    if !goOn && AtZero(c, data) then Extracted(c.tree)
    else
      match ReadUnit(destination, c, data)
      case End(v) => v
      case Next(next, rest) => Read(destination, goOn, next, rest)
  }

  /** Data that changes nothing: zero headers, complete PAX records, folders that exist. */
  predicate Inert(destination: Path, t: Tree, data: Name)
    decreases |data|
  {
    |data| < 512
    || var header, rest := data[..512], data[512..];
       if AllZero(header) then Inert(destination, t, rest)
       else
         match Decode(destination, header)
         case Pax(size) =>
           size >= 0 && size + Padding(size) <= |rest| && Inert(destination, t, rest[size + Padding(size)..])
         case Directory(path) => MkdirAll(t.fs, path) == Some(t.fs) && Inert(destination, t, rest)
         case _ => false
  }

  /** Only inert data follows the first zero header. */
  predicate InertTail(destination: Path, c: Core, data: Name)
    requires NonNegative(destination, c, data)
    decreases |data|, Rank(c.mode)
  {
    if AtZero(c, data) then Inert(destination, c.tree, data[512..])
    else
      var u := ReadUnit(destination, c, data);
      u.Next? ==> InertTail(destination, u.core, u.rest)
  }

  // ---------- One turn of the loop is one unit, or a part of one ----------

  lemma AppendParts(fs: Files, p: Path, a: Name, b: Name)
    ensures Append(Append(fs, p, a), p, b) == Append(fs, p, a + b)
    ensures Append(fs, p, []) == fs
  {
    if p in fs && fs[p].Regular? {
      assert fs[p].content + [] == fs[p].content;
      assert fs[p].content + a + b == fs[p].content + (a + b);
    }
  }

  /** The unit that starts at c in buffer + more, once a turn has worked on the buffer. */
  ghost predicate TurnFits(destination: Path, c: Core, buffer: Name, more: Name)
    requires ModeOk(c.mode)
  {
    var u := ReadUnit(destination, c, buffer + more);
    match Step(destination, c, buffer)
    case Stop(e) => u == End(Refused(e))
    case Again(c', b') => u == Next(c', b' + more)
    case Wait(c', b') =>
      if AtZero(c, buffer) then c' == c && u == Next(c, b' + more)
      else ModeOk(c'.mode) && c'.mode.Header? == c.mode.Header? && (c.mode.Header? ==> c' == c && b' == buffer)
           && u == ReadUnit(destination, c', b' + more)
  }

  lemma SkipTurnFits(destination: Path, c: Core, buffer: Name, more: Name)
    requires ModeOk(c.mode) && c.mode.Skip?
    ensures TurnFits(destination, c, buffer, more)
  {
    hide Enter, EnterError, Append, Close, AllZero;
    var payload, padding := c.mode.payload, c.mode.padding;
    DropJoined(buffer, more, payload + padding);
    if |buffer| >= payload + padding {
      assert Step(destination, c, buffer) == Again(Core(c.tree, Header), buffer[payload + padding..]);
    } else {
      var taken := Min(|buffer|, payload);
      assert buffer[|buffer|..] == [];
      assert Step(destination, c, buffer)
             == Wait(Core(c.tree, Skip(payload - taken, padding - (|buffer| - taken))), []);
    }
  }

  lemma PadTurnFits(destination: Path, c: Core, buffer: Name, more: Name)
    requires ModeOk(c.mode) && c.mode.Pad?
    ensures TurnFits(destination, c, buffer, more)
  {
    hide Enter, EnterError, Append, Close, AllZero;
    var count := c.mode.count;
    DropJoined(buffer, more, count);
    if |buffer| >= count {
      assert Step(destination, c, buffer) == Again(Core(c.tree, Header), buffer[count..]);
    } else {
      assert buffer[|buffer|..] == [];
      assert Step(destination, c, buffer) == Wait(Core(c.tree, Pad(count - |buffer|)), []);
    }
  }

  lemma DropJoined(a: Name, b: Name, n: nat)
    ensures [] + b == b
    ensures n <= |a| ==> (a + b)[n..] == a[n..] + b
    ensures |a| <= n <= |a + b| ==> (a + b)[n..] == b[n - |a|..]
  {
  }

  lemma HeaderTurnFits(destination: Path, c: Core, buffer: Name, more: Name)
    requires c.mode.Header?
    ensures TurnFits(destination, c, buffer, more)
  {
    hide Enter, EnterError, AllZero;
    if |buffer| >= 512 {
      assert (buffer + more)[..512] == buffer[..512] && (buffer + more)[512..] == buffer[512..] + more;
    }
  }

  /** The whole body is in the buffer. */
  lemma WholeBodyFits(destination: Path, c: Core, buffer: Name, more: Name)
    requires ModeOk(c.mode) && c.mode.Body? && |buffer| >= c.mode.remaining
    ensures TurnFits(destination, c, buffer, more)
  {
    hide Append, Close;
    var data, n, file := buffer + more, c.mode.remaining, c.mode.file;
    assert data[n..] == buffer[n..] + more && data[..n] == buffer[..n];
    if n == 0 {
      AppendParts(c.tree.fs, file.path, [], []);
      assert data[..0] == [] && data[0..] == data && c.tree.(fs := c.tree.fs) == c.tree;
    }
  }

  /** Only the start of the body is in the buffer. */
  lemma PartBodyFits(destination: Path, c: Core, buffer: Name, more: Name)
    requires ModeOk(c.mode) && c.mode.Body? && |buffer| < c.mode.remaining
    ensures TurnFits(destination, c, buffer, more)
  {
    hide Append, Close;
    var data, n, file := buffer + more, c.mode.remaining, c.mode.file;
    assert [] + more == more && buffer[..|buffer|] == buffer && buffer[|buffer|..] == [];
    if n <= |data| {
      assert data[n..] == more[n - |buffer|..] && data[..n] == buffer + more[..n - |buffer|];
      AppendParts(c.tree.fs, file.path, buffer, more[..n - |buffer|]);
    }
    if |buffer| == 0 {
      assert data == more;
    }
  }

  lemma BodyTurnFits(destination: Path, c: Core, buffer: Name, more: Name)
    requires ModeOk(c.mode) && c.mode.Body?
    ensures TurnFits(destination, c, buffer, more)
  {
    hide TurnFits;
    if |buffer| >= c.mode.remaining {
      WholeBodyFits(destination, c, buffer, more);
    } else {
      PartBodyFits(destination, c, buffer, more);
    }
  }

  lemma TurnIsUnit(destination: Path, c: Core, buffer: Name, more: Name)
    requires ModeOk(c.mode)
    ensures TurnFits(destination, c, buffer, more)
  {
    hide TurnFits;
    match c.mode {
      case Header => HeaderTurnFits(destination, c, buffer, more);
      case Body(_, _) => BodyTurnFits(destination, c, buffer, more);
      case Skip(_, _) => SkipTurnFits(destination, c, buffer, more);
      case Pad(_) => PadTurnFits(destination, c, buffer, more);
    }
  }

  // ---------- Chunked reading goes on past zero headers ----------

  /** What reading on from c would give if the bytes still to come were appended. */
  ghost predicate Leads(destination: Path, c: Core, data: Name, v: Verdict) {
    NonNegative(destination, c, data) && Read(destination, true, c, data) == v
  }

  /** The loop may end here: nothing more is read, and the verdict is the reader's. */
  ghost predicate Settled(destination: Path, c: Core, buffer: Name) {
    Leads(destination, c, buffer, Finish(c))
  }

  lemma {:induction false} DrainLeads(destination: Path, c: Core, buffer: Name, more: Name, v: Verdict)
    requires Leads(destination, c, buffer + more, v)
    ensures match Drain(destination, c, buffer)
            case Stop(e) => v == Refused(e)
            case Wait(c', b') => Leads(destination, c', b' + more, v)
            case _ => true
    decreases |buffer|, Rank(c.mode)
  {
    hide ReadUnit, AtZero;
    TurnIsUnit(destination, c, buffer, more);
    var turn := Step(destination, c, buffer);
    if turn.Again? {
      DrainLeads(destination, turn.core, turn.buffer, more, v);
    }
  }

  /** The tail stays inert while a chunk is worked on. */
  lemma {:induction false} DrainTail(destination: Path, c: Core, buffer: Name, more: Name)
    requires NonNegative(destination, c, buffer + more) && InertTail(destination, c, buffer + more)
    ensures var turn := Drain(destination, c, buffer);
            turn.Wait? ==> NonNegative(destination, turn.core, turn.buffer + more)
                           && InertTail(destination, turn.core, turn.buffer + more)
    ensures var turn := Drain(destination, c, buffer);
            turn.Wait? && more == [] ==> Settled(destination, turn.core, turn.buffer)
    decreases |buffer|, Rank(c.mode)
  {
    hide Enter;
    TurnIsUnit(destination, c, buffer, more);
    var turn := Step(destination, c, buffer);
    assert |buffer| >= 512 ==> (buffer + more)[..512] == buffer[..512];
    if turn.Again? {
      DrainTail(destination, turn.core, turn.buffer, more);
    } else if turn.Wait? {
      if AtZero(c, buffer) {
        assert (buffer + more)[512..] == turn.buffer + more;
        InertIsTail(destination, c.tree, turn.buffer + more);
      }
      if more == [] {
        assert turn.buffer + more == turn.buffer;
        WaitSettles(destination, c, buffer);
      }
    }
  }

  lemma {:induction false} InertIsTail(destination: Path, t: Tree, data: Name)
    requires Inert(destination, t, data)
    ensures var c := Core(t, Header);
            && NonNegative(destination, c, data) && InertTail(destination, c, data)
            && Read(destination, true, c, data) == Extracted(t)
    decreases |data|
  {
    hide Decode, MkdirAll, Create;
    var c := Core(t, Header);
    if |data| >= 512 {
      var header, rest := data[..512], data[512..];
      if AllZero(header) {
        InertIsTail(destination, t, rest);
      } else if Decode(destination, header).Pax? {
        var size := Decode(destination, header).size;
        var n := size + Padding(size);
        InertIsTail(destination, t, rest[n..]);
        var skip := AfterSkip(t, size, Padding(size));
        assert Enter(destination, t, header) == Some(skip);
        assert ReadUnit(destination, c, data) == Next(skip, rest);
        if n == 0 {
          assert rest[n..] == rest;
        } else {
          assert ReadUnit(destination, skip, rest) == Next(c, rest[n..]);
        }
      } else {
        InertIsTail(destination, t, rest);
        assert t.(fs := t.fs) == t;
        assert Enter(destination, t, header) == Some(c);
      }
    }
  }

  /** Waiting with nothing more to come is where the reader ends, too. */
  lemma WaitSettles(destination: Path, c: Core, buffer: Name)
    requires NonNegative(destination, c, buffer) && Step(destination, c, buffer).Wait?
    requires InertTail(destination, c, buffer) || |Step(destination, c, buffer).buffer| < 512
    ensures Settled(destination, Step(destination, c, buffer).core, Step(destination, c, buffer).buffer)
  {
    TurnIsUnit(destination, c, buffer, []);
    assert buffer + [] == buffer;
    var turn := Step(destination, c, buffer);
    assert turn.buffer + [] == turn.buffer;
    if AtZero(c, buffer) {
      assert turn.buffer == buffer[512..];
      if InertTail(destination, c, buffer) {
        InertIsTail(destination, c.tree, turn.buffer);
      }
    }
  }

  /** The theorem of the streaming extractor: when only inert data follows the first zero
      header, every way of cutting the archive into chunks gives the whole reader's verdict. */
  lemma {:induction false} FeedLeads(destination: Path, c: Core, buffer: Name, chunks: seq<Name>, v: Verdict)
    requires Leads(destination, c, buffer + Concat(chunks), v) && InertTail(destination, c, buffer + Concat(chunks))
    requires |chunks| == 0 ==> Settled(destination, c, buffer)
    ensures v == match Feed(destination, c, buffer, chunks) case Stop(e) => Refused(e) case turn => Finish(turn.core)
    decreases |chunks|
  {
    hide Drain, InertTail, Read, NonNegative;
    if |chunks| == 0 {
      assert buffer + Concat(chunks) == buffer;
    } else {
      var rest := Concat(chunks[1..]);
      assert buffer + Concat(chunks) == (buffer + chunks[0]) + rest;
      DrainLeads(destination, c, buffer + chunks[0], rest, v);
      DrainTail(destination, c, buffer + chunks[0], rest);
      var turn := Drain(destination, c, buffer + chunks[0]);
      if turn.Wait? {
        FeedLeads(destination, turn.core, turn.buffer, chunks[1..], v);
      }
    }
  }

  lemma {:induction false} ZerosAreInert(destination: Path, t: Tree, data: Name)
    requires AllZero(data)
    ensures Inert(destination, t, data)
    decreases |data|
  {
    if |data| >= 512 {
      ZerosAreInert(destination, t, data[512..]);
    }
  }

  /** Only zeros follow the first zero header. */
  predicate ZeroTail(destination: Path, c: Core, data: Name)
    requires NonNegative(destination, c, data)
    decreases |data|, Rank(c.mode)
  {
    if AtZero(c, data) then AllZero(data)
    else
      var u := ReadUnit(destination, c, data);
      u.Next? ==> ZeroTail(destination, u.core, u.rest)
  }

  lemma {:induction false} ZeroTailIsInert(destination: Path, c: Core, data: Name)
    requires NonNegative(destination, c, data) && ZeroTail(destination, c, data)
    ensures InertTail(destination, c, data)
    decreases |data|, Rank(c.mode)
  {
    hide Enter;
    var u := ReadUnit(destination, c, data);
    if AtZero(c, data) {
      ZerosAreInert(destination, c.tree, data[512..]);
    } else if u.Next? {
      ZeroTailIsInert(destination, u.core, u.rest);
    }
  }

  /** An inert tail reads the same whether or not the reader stops at the first zero header. */
  lemma {:induction false} TailReadsAlike(destination: Path, c: Core, data: Name)
    requires NonNegative(destination, c, data) && InertTail(destination, c, data)
    ensures Read(destination, true, c, data) == Read(destination, false, c, data)
    decreases |data|, Rank(c.mode)
  {
    hide Enter;
    var u := ReadUnit(destination, c, data);
    if AtZero(c, data) {
      InertIsTail(destination, c.tree, data[512..]);
    } else if u.Next? {
      TailReadsAlike(destination, u.core, u.rest);
    }
  }

  lemma ChunksDoNotMatter(destination: Path, chunks: seq<Name>)
    requires NonNegative(destination, EMPTY, Concat(chunks)) && InertTail(destination, EMPTY, Concat(chunks))
    ensures Extract(destination, chunks) == Read(destination, false, EMPTY, Concat(chunks))
  {
    hide Read, InertTail, Drain;
    var data := Concat(chunks);
    assert [] + data == data;
    NothingSettles(destination);
    TailReadsAlike(destination, EMPTY, data);
    FeedLeads(destination, EMPTY, [], chunks, Read(destination, true, EMPTY, data));
  }

  lemma NothingSettles(destination: Path)
    ensures Settled(destination, EMPTY, [])
  {
  }

  // ---------- When chunks do matter ----------

  function Each(data: Name): (chunks: seq<Name>)
    ensures Concat(chunks) == data
  {
    if |data| == 0 then [] else [[data[0]]] + Each(data[1..])
  }

  /** A buffer that holds at most one header is never left with another one. */
  lemma {:induction false} ShortBuffers(destination: Path, c: Core, buffer: Name, more: Name)
    requires NonNegative(destination, c, buffer + more) && |buffer| <= 512
    ensures var turn := Drain(destination, c, buffer);
            turn.Wait? ==> |turn.buffer| < 512 && (more == [] ==> Settled(destination, turn.core, turn.buffer))
    decreases |buffer|, Rank(c.mode)
  {
    hide ReadUnit, Enter;
    TurnIsUnit(destination, c, buffer, more);
    var turn := Step(destination, c, buffer);
    if turn.Again? {
      ShortBuffers(destination, turn.core, turn.buffer, more);
    } else if turn.Wait? && more == [] {
      assert buffer + more == buffer;
      WaitSettles(destination, c, buffer);
    }
  }

  /** Fed byte by byte, the extractor goes on past every zero header. */
  lemma {:induction false} BytesGoOn(destination: Path, c: Core, buffer: Name, data: Name, v: Verdict)
    requires Leads(destination, c, buffer + data, v) && |buffer| < 512
    requires data == [] ==> Settled(destination, c, buffer)
    ensures v == match Feed(destination, c, buffer, Each(data)) case Stop(e) => Refused(e) case turn => Finish(turn.core)
    decreases |data|
  {
    hide Drain, Read, NonNegative;
    if data == [] {
      assert buffer + data == buffer;
    } else {
      var one, rest := [data[0]], data[1..];
      assert buffer + data == (buffer + one) + rest;
      DrainLeads(destination, c, buffer + one, rest, v);
      ShortBuffers(destination, c, buffer + one, rest);
      assert Each(data)[0] == one && Each(data)[1..] == Each(rest);
      var turn := Drain(destination, c, buffer + one);
      if turn.Wait? {
        BytesGoOn(destination, turn.core, turn.buffer, rest, v);
      }
    }
  }

  ghost predicate Below(a: Tree, b: Tree) {
    a.fs.Keys <= b.fs.Keys && |a.links| <= |b.links|
  }

  lemma {:induction false} MkdirGrows(fs: Files, p: Path)
    ensures var made := MkdirAll(fs, p);
            made.Some? ==> fs.Keys <= made.value.Keys && (made.value.Keys <= fs.Keys ==> made.value == fs)
    decreases |p|
  {
    if |p| > 0 {
      MkdirGrows(fs, p[..|p| - 1]);
    }
  }

  lemma CreateGrows(fs: Files, p: Path)
    ensures var made := Create(fs, p);
            made.Some? ==> fs.Keys <= made.value.Keys && p in made.value && p !in fs
  {
    if |p| > 0 {
      MkdirGrows(fs, p[..|p| - 1]);
    }
  }

  lemma UnitGrows(destination: Path, c: Core, data: Name)
    requires ModeOk(c.mode)
    ensures var u := ReadUnit(destination, c, data);
            u.Next? ==> Below(c.tree, u.core.tree)
    ensures var u := ReadUnit(destination, c, data);
            u.End? && u.verdict.Extracted? ==> u.verdict.tree == c.tree
  {
    hide Decode, MkdirAll, Create;
    if c.mode.Header? && |data| >= 512 {
      match Decode(destination, data[..512]) {
        case Directory(p) => MkdirGrows(c.tree.fs, p);
        case File(p, _, _) => CreateGrows(c.tree.fs, p);
        case _ =>
      }
    }
  }

  lemma {:induction false} ReadGrows(destination: Path, c: Core, data: Name)
    requires NonNegative(destination, c, data) && Read(destination, true, c, data).Extracted?
    ensures Below(c.tree, Read(destination, true, c, data).tree)
    decreases |data|, Rank(c.mode)
  {
    hide ReadUnit;
    UnitGrows(destination, c, data);
    var u := ReadUnit(destination, c, data);
    if u.Next? {
      ReadGrows(destination, u.core, u.rest);
    }
  }

  /** Data that a reader passes without any effect is inert. */
  lemma {:induction false} EffectlessIsInert(destination: Path, t: Tree, data: Name)
    requires NonNegative(destination, Core(t, Header), data)
    requires Read(destination, true, Core(t, Header), data) == Extracted(t)
    ensures Inert(destination, t, data)
    decreases |data|, 0
  {
    hide Decode;
    if |data| >= 512 {
      var header, rest := data[..512], data[512..];
      if AllZero(header) {
        EffectlessIsInert(destination, t, rest);
      } else {
        var next := Enter(destination, t, header);
        assert ReadUnit(destination, Core(t, Header), data) == Next(next.value, rest);
        ReadGrows(destination, next.value, rest);
        EffectlessEntry(destination, t, header, rest);
      }
    }
  }

  lemma EffectlessEntry(destination: Path, t: Tree, header: Name, rest: Name)
    requires |header| == 512 && !AllZero(header) && Enter(destination, t, header).Some?
    requires NonNegative(destination, Enter(destination, t, header).value, rest)
    requires Read(destination, true, Enter(destination, t, header).value, rest) == Extracted(t)
    ensures Inert(destination, t, header + rest)
    decreases |rest|, 1
  {
    hide Decode, MkdirAll, Create;
    var next := Enter(destination, t, header).value;
    assert (header + rest)[..512] == header && (header + rest)[512..] == rest;
    ReadGrows(destination, next, rest);
    match Decode(destination, header) {
      case Pax(size) =>
        var n := size + Padding(size);
        if n == 0 {
          EffectlessIsInert(destination, t, rest);
          assert rest[n..] == rest;
        } else {
          EffectlessIsInert(destination, t, rest[n..]);
        }
      case Directory(p) =>
        MkdirGrows(t.fs, p);
        assert t.(fs := t.fs) == t;
        EffectlessIsInert(destination, t, rest);
      case File(p, _, _) =>
        CreateGrows(t.fs, p);
      case _ =>
    }
  }

  lemma {:induction false} AlikeHasInertTail(destination: Path, c: Core, data: Name)
    requires NonNegative(destination, c, data)
    requires Read(destination, true, c, data) == Read(destination, false, c, data)
    ensures InertTail(destination, c, data)
    decreases |data|, Rank(c.mode)
  {
    hide Enter, Inert;
    var u := ReadUnit(destination, c, data);
    if AtZero(c, data) {
      EffectlessIsInert(destination, c.tree, data[512..]);
    } else if u.Next? {
      AlikeHasInertTail(destination, u.core, u.rest);
    }
  }

  /** Exactly when chunks do not matter: for an archive without negative sizes, the extractor
      agrees with the one-pass reader on every way of cutting the archive if and only if what
      follows the first zero header is inert. */
  lemma ChunksDoNotMatterIff(destination: Path, data: Name)
    requires NonNegative(destination, EMPTY, data)
    ensures InertTail(destination, EMPTY, data)
            <==> forall chunks :: Concat(chunks) == data
                   ==> Extract(destination, chunks) == Read(destination, false, EMPTY, data)
  {
    hide Read, InertTail, Drain, NonNegative;
    if InertTail(destination, EMPTY, data) {
      forall chunks | Concat(chunks) == data
        ensures Extract(destination, chunks) == Read(destination, false, EMPTY, data)
      {
        ChunksDoNotMatter(destination, chunks);
      }
    } else if Extract(destination, Each(data)) == Read(destination, false, EMPTY, data) {
      assert [] + data == data;
      NothingSettles(destination);
      BytesGoOn(destination, EMPTY, [], data, Read(destination, true, EMPTY, data));
      AlikeHasInertTail(destination, EMPTY, data);
    } else {
      assert Concat(Each(data)) == data;
    }
  }
}
