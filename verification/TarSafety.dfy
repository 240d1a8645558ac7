/** Where extraction can reach: nothing outside the destination, for any bytes whatever. */
module TarSafety {
  import opened Bytes
  import opened Outcomes
  import opened TarFormat
  import opened TarExtract

  // ---------- Walking ----------

  lemma {:induction false} WalkShrinks(base: Path, parts: seq<Name>)
    ensures |Walk(base, parts)| <= |base| + |Plain(parts)|
    ensures DOTDOT in parts ==> |Walk(base, parts)| < |base| + |Plain(parts)|
    decreases |parts|
  {
    if |parts| > 0 {
      if parts[0] == [] || parts[0] == DOT {
        WalkShrinks(base, parts[1..]);
      } else if parts[0] == DOTDOT {
        WalkShrinks(Parent(base), parts[1..]);
      } else {
        WalkShrinks(base + [parts[0]], parts[1..]);
      }
    }
  }

  /** Walking the parts leads to the plain parts below the base exactly if none leads up. */
  lemma {:induction false} WalkIsPlainIff(base: Path, parts: seq<Name>)
    ensures Walk(base, parts) == base + Plain(parts) <==> DOTDOT !in parts
    decreases |parts|
  {
    if DOTDOT in parts {
      WalkShrinks(base, parts);
    } else {
      WalkIsPlain(base, parts);
    }
  }

  lemma {:induction false} WalkIsPlain(base: Path, parts: seq<Name>)
    requires DOTDOT !in parts
    ensures Walk(base, parts) == base + Plain(parts)
    decreases |parts|
  {
    if |parts| == 0 {
      assert base + Plain(parts) == base;
    } else if parts[0] == [] || parts[0] == DOT {
      WalkIsPlain(base, parts[1..]);
    } else {
      WalkIsPlain(base + [parts[0]], parts[1..]);
      assert base + [parts[0]] + Plain(parts[1..]) == base + ([parts[0]] + Plain(parts[1..]));
    }
  }

  /** Plain parts without any that leads up. */
  predicate Clean(p: Path) {
    [] !in p && DOT !in p && DOTDOT !in p
  }

  lemma {:induction false} PlainIsFixed(p: Path)
    requires Clean(p)
    ensures Plain(p) == p
    decreases |p|
  {
    if |p| > 0 {
      PlainIsFixed(p[1..]);
      assert [p[0]] + p[1..] == p;
    }
  }

  // ---------- What extraction keeps ----------

  /** The link is below the destination or in its place, and what it points to is not outside. */
  predicate LinkInside(destination: Path, name: Name, target: Name) {
    var place := Walk(destination, Split(name));
    && |name| > 0 && name[0] != SLASH && place == destination + PathOf(name)
    && |target| > 0 && target[0] != SLASH && destination <= Walk(Parent(place), Split(target))
  }

  ghost predicate Contained(destination: Path, t: Tree) {
    && (forall p :: p in t.fs ==> Clean(p))
    && (forall k :: 0 <= k < |t.links| ==> LinkInside(destination, t.links[k].0, t.links[k].1))
  }

  lemma {:induction false} MkdirStays(fs: Files, p: Path)
    requires Clean(p) && forall q :: q in fs ==> Clean(q)
    ensures MkdirAll(fs, p).Some? ==> forall q :: q in MkdirAll(fs, p).value ==> Clean(q)
    decreases |p|
  {
    if |p| > 0 {
      MkdirStays(fs, p[..|p| - 1]);
    }
  }

  lemma CreateStays(fs: Files, p: Path)
    requires Clean(p) && forall q :: q in fs ==> Clean(q)
    ensures Create(fs, p).Some? ==> forall q :: q in Create(fs, p).value ==> Clean(q)
  {
    if |p| > 0 {
      MkdirStays(fs, p[..|p| - 1]);
    }
  }

  /** No entry that a header can ask for leads outside. */
  lemma EntryInside(destination: Path, header: Name)
    requires |header| == 512
    ensures match Decode(destination, header)
            case Directory(path) => Clean(path)
            case File(path, _, _) => Clean(path)
            case Link(name, target) => LinkInside(destination, name, target)
            case _ => true
  {
    hide TarNumber, TarName, TarLinkName, Walk, Split, Plain, Slashes;
    var name := Slashes(TarName(header));
    WalkIsPlainIff(destination, Split(name));
  }

  lemma EnterStays(destination: Path, t: Tree, header: Name)
    requires |header| == 512 && Contained(destination, t) && Enter(destination, t, header).Some?
    ensures Contained(destination, Enter(destination, t, header).value.tree)
  {
    hide Decode, MkdirAll, Create, LinkInside, Clean;
    EntryInside(destination, header);
    match Decode(destination, header) {
      case Directory(path) => MkdirStays(t.fs, path);
      case File(path, _, _) => CreateStays(t.fs, path);
      case _ =>
    }
  }

  lemma StepStays(destination: Path, c: Core, buffer: Name)
    requires Contained(destination, c.tree)
    ensures var turn := Step(destination, c, buffer); !turn.Stop? ==> Contained(destination, turn.core.tree)
  {
    hide Enter, LinkInside, Clean, Padding, From, Upto;
    if c.mode.Header? && |buffer| >= 512 && Enter(destination, c.tree, buffer[..512]).Some? {
      EnterStays(destination, c.tree, buffer[..512]);
    }
  }

  lemma {:induction false} DrainStays(destination: Path, c: Core, buffer: Name)
    requires Contained(destination, c.tree)
    ensures var turn := Drain(destination, c, buffer); !turn.Stop? ==> Contained(destination, turn.core.tree)
    decreases |buffer|, Rank(c.mode)
  {
    hide Step, Contained;
    StepStays(destination, c, buffer);
    DrainOnce(destination, c, buffer);
    var turn := Step(destination, c, buffer);
    if turn.Again? {
      DrainStays(destination, turn.core, turn.buffer);
    }
  }

  lemma {:induction false} FeedStays(destination: Path, c: Core, buffer: Name, chunks: seq<Name>)
    requires Contained(destination, c.tree)
    ensures var turn := Feed(destination, c, buffer, chunks); !turn.Stop? ==> Contained(destination, turn.core.tree)
    decreases |chunks|
  {
    hide Drain, Contained;
    if |chunks| > 0 {
      DrainStays(destination, c, buffer + chunks[0]);
      var turn := Drain(destination, c, buffer + chunks[0]);
      if turn.Wait? {
        FeedStays(destination, turn.core, turn.buffer, chunks[1..]);
      }
    }
  }

  /** Whatever the bytes and however they are cut: every file and folder is at the place that
      its path leads to from the destination; every link has a place below the destination, or
      the destination's own, and points to something that is not outside. */
  lemma ExtractionStaysInside(destination: Path, chunks: seq<Name>)
    requires Extract(destination, chunks).Extracted?
    ensures var tree := Extract(destination, chunks).tree;
            && (forall p :: p in tree.fs ==> Walk(destination, p) == destination + p)
            && (forall k :: 0 <= k < |tree.links| ==>
                  var (name, target) := tree.links[k];
                  var place := Walk(destination, Split(name));
                  && |name| > 0 && name[0] != SLASH && |target| > 0 && target[0] != SLASH
                  && destination <= place && destination <= Walk(Parent(place), Split(target)))
  {
    hide Feed, Walk, Split;
    assert Contained(destination, EMPTY.tree);
    FeedStays(destination, EMPTY, [], chunks);
    var tree := Extract(destination, chunks).tree;
    forall p | p in tree.fs
      ensures Walk(destination, p) == destination + p
    {
      PlainIsFixed(p);
      WalkIsPlain(destination, p);
    }
  }

  /** A relative name leads strictly below the destination exactly if it has a part that is
      neither empty nor a dot; a name of dots and slashes alone is the destination. */
  lemma PlaceIsBelowIff(destination: Path, name: Name)
    requires DOTDOT !in Split(name)
    ensures destination <= Walk(destination, Split(name))
    ensures Walk(destination, Split(name)) != destination <==> exists part :: part in Split(name) && part != [] && part != DOT
  {
    WalkIsPlain(destination, Split(name));
    PlainIsEmptyIff(Split(name));
    assert PathOf(name) == [] ==> destination + PathOf(name) == destination;
  }

  lemma {:induction false} PlainIsEmptyIff(parts: seq<Name>)
    ensures Plain(parts) != [] <==> exists part :: part in parts && part != [] && part != DOT
    decreases |parts|
  {
    if |parts| > 0 {
      PlainIsEmptyIff(parts[1..]);
      assert parts[0] in parts && forall part :: part in parts <==> part == parts[0] || part in parts[1..];
    }
  }

  // ---------- What is refused ----------

  /** The four refusals of a header that is not all zeros, each exactly when it is due. */
  lemma RefusedIff(destination: Path, c: Core, buffer: Name)
    requires c.mode.Header? && |buffer| >= 512 && !AllZero(buffer[..512])
    ensures var header := buffer[..512];
            var turn, kind := Step(destination, c, buffer), header[156];
            var name, target := Slashes(TarName(header)), Slashes(TarLinkName(header));
            var leads := |name| > 0 && name[0] != SLASH && Walk(destination, Split(name)) == destination + PathOf(name);
            var named := kind == 0 || kind == 48 || kind == 50 || kind == 53;
            && (turn == Stop(SpecialEntry) <==> !named && kind != 120)
            && (turn == Stop(UnsafePath) <==> named && !leads)
            && (turn == Stop(UnsafeLink) <==>
                  kind == 50 && leads
                  && (TarNumber(header, 124, 12) != Some(0) || |target| == 0 || target[0] == SLASH
                      || !(destination <= Walk(Parent(destination + PathOf(name)), Split(target)))))
            && (turn == Stop(Storage) <==>
                  leads && (|| (kind == 53 && MkdirAll(c.tree.fs, PathOf(name)).None?)
                            || ((kind == 0 || kind == 48) && Create(c.tree.fs, PathOf(name)).None?)))
  {
    hide TarNumber, TarName, TarLinkName, Walk, Split, Plain, Slashes, MkdirAll, Create;
    WalkIsPlainIff(destination, Split(Slashes(TarName(buffer[..512]))));
  }
}
