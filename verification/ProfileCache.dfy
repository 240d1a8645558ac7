/** The profile archive cache: for each profile a pointer file and content-named archives, kept
    such that a process may stop anywhere, and its refinement of a map with one slot a profile. */
module ProfileCache {
  import opened Bytes
  import opened Outcomes

  /** An origin and a profile; their digests name the directory. */
  datatype Subject = Subject(appOrigin: string, profileId: string)

  /** A digest, taken as injective. */
  datatype Sha = Sha(of: Bytes)

  datatype Reference = Reference(subject: Subject, generation: nat, size: nat, sha: Sha)

  datatype FileName = Zip(generation: nat, sha: Sha) | Temp(id: nat)

  datatype Metadata = Metadata(reference: Reference, archive: FileName)

  predicate Identified(data: Bytes, reference: Reference) {
    |data| == reference.size && Sha(data) == reference.sha
  }

  lemma IdentifiedSize(data: Bytes, reference: Reference)
    requires Identified(data, reference)
    ensures |reference.sha.of| == reference.size && data == reference.sha.of
  {
  }

  function ArchiveOf(reference: Reference): FileName {
    Zip(reference.generation, reference.sha)
  }

  /** Where an operation on the files stops, and how. */
  datatype Place = Preparing | Copying(written: Bytes) | BeforePointer | BeforeCleanup | Cleaning(removed: nat)

  datatype How = StorageError | OtherError | Death

  datatype Fault = Fault(at: Place, how: How)

  datatype Answer = Done | Refused | Stopped(how: How)

  datatype Resolved = Hit(data: Bytes) | Absent | Corrupt | StorageTrouble | Died | BadReference

  /** How resolving reports an error: an unknown one counts as corruption. */
  function Report(how: How): Resolved {
    match how
    case StorageError => StorageTrouble
    case OtherError => Corrupt
    case Death => Died
  }

  /** The pointer is written. */
  predicate Commits(reference: Reference, source: Option<Bytes>, fault: Option<Fault>) {
    && reference.subject.profileId != ""
    && source.Some? && Identified(source.value, reference)
    && (fault.None? || fault.value.at.BeforeCleanup? || fault.value.at.Cleaning?)
  }

  /** How publishing ends, given whether the place of the archive is free or holds it already. */
  function PublishAnswer(reference: Reference, source: Option<Bytes>, fault: Option<Fault>, clear: bool): Answer {
    if reference.subject.profileId == "" then Refused
    else if fault.Some? && fault.value.at.Preparing? then Stopped(fault.value.how)
    else if source.None? then Stopped(OtherError)
    else if fault.Some? && fault.value.at.Copying? then Stopped(fault.value.how)
    else if !Identified(source.value, reference) then Stopped(StorageError)
    else if !clear then Stopped(OtherError)
    else if fault.Some? then Stopped(fault.value.how)
    else Done
  }

  // ---------- A map with one slot a profile ----------

  datatype Request =
    | Publishing(reference: Reference, source: Option<Bytes>, fault: Option<Fault>)
    | Resolving(reference: Reference, fault: Option<Fault>)
    | Removing(subject: Subject)

  function Lookup(slots: map<Subject, Reference>, s: Subject): Option<Reference> {
    if s in slots then Some(slots[s]) else None
  }

  function SlotsAfter(slots: map<Subject, Reference>, request: Request): map<Subject, Reference> {
    match request
    case Publishing(reference, source, fault) =>
      if Commits(reference, source, fault) then slots[reference.subject := reference] else slots
    case Resolving(_, _) => slots
    case Removing(s) => slots - {s}
  }

  predicate Hits(slots: map<Subject, Reference>, request: Request) {
    && request.Resolving? && request.reference.subject.profileId != ""
    && Lookup(slots, request.reference.subject) == Some(request.reference)
    && (request.fault.None? || (!request.fault.value.at.Preparing? && !request.fault.value.at.Cleaning?))
  }

  function SlotsAfterAll(slots: map<Subject, Reference>, requests: seq<Request>): map<Subject, Reference> {
    if |requests| == 0 then slots
    else SlotsAfter(SlotsAfterAll(slots, requests[..|requests| - 1]), requests[|requests| - 1])
  }

  /** The request makes or clears the slot of the profile. */
  predicate Settles(request: Request, s: Subject) {
    match request
    case Publishing(reference, source, fault) => reference.subject == s && Commits(reference, source, fault)
    case Resolving(_, _) => false
    case Removing(t) => t == s
  }

  /** A slot holds a reference exactly if its commit is the last request that settled the slot. */
  lemma {:induction false} LastCommitHolds(requests: seq<Request>, s: Subject, reference: Reference)
    ensures Lookup(SlotsAfterAll(map[], requests), s) == Some(reference)
            <==> exists i :: 0 <= i < |requests| && requests[i].Publishing? && requests[i].reference == reference
                             && Settles(requests[i], s) && forall j :: i < j < |requests| ==> !Settles(requests[j], s)
    decreases |requests|
  {
    if |requests| > 0 {
      var n := |requests| - 1;
      var before, last := requests[..n], requests[n];
      LastCommitHolds(before, s, reference);
      if Settles(last, s) {
        assert Lookup(SlotsAfterAll(map[], requests), s) == Some(reference)
               <==> last.Publishing? && last.reference == reference;
      } else {
        assert forall j :: 0 <= j < n ==> before[j] == requests[j];
        assert Lookup(SlotsAfterAll(map[], requests), s) == Lookup(SlotsAfterAll(map[], before), s);
      }
    }
  }

  // ---------- The cache ----------

  class Cache {
    var pointers: map<Subject, Metadata>
    var files: map<(Subject, FileName), Bytes>
    var nextTemp: nat

    /** The reference that the directory of a profile holds in a usable form. */
    function Slot(s: Subject): (r: Option<Reference>)
      reads this
    {
      if s in pointers && Holds(s, pointers[s]) then Some(pointers[s].reference) else None
    }

    predicate Holds(s: Subject, m: Metadata)
      reads this
    {
      && m.reference.subject == s && m.archive == ArchiveOf(m.reference)
      && (s, m.archive) in files && Identified(files[(s, m.archive)], m.reference)
    }

    /** Every pointer names an archive that exists with the recorded size and digest, and every
        archive has the digest in its name. */
    ghost predicate Sound()
      reads this
    {
      && (forall s :: s in pointers ==> Holds(s, pointers[s]))
      && (forall k: (Subject, FileName) :: k in files && k.1.Zip? ==> Sha(files[k]) == k.1.sha)
    }

    /** Names of temporary files are never given twice. */
    ghost predicate Valid()
      reads this
    {
      forall k: (Subject, FileName) :: k in files && k.1.Temp? ==> k.1.id < nextTemp
    }

    /** The place of an archive is free, or holds it already. */
    predicate Clear(reference: Reference)
      reads this
    {
      var k := (reference.subject, ArchiveOf(reference));
      k in files ==> Identified(files[k], reference)
    }

    lemma SoundIsClear(reference: Reference)
      requires Sound() && |reference.sha.of| == reference.size
      ensures Clear(reference)
    {
    }

    twostate predicate OthersKept(s: Subject)
      reads this
    {
      && (forall t :: t != s ==> (t in pointers <==> t in old(pointers)))
      && (forall t :: t != s && t in pointers ==> pointers[t] == old(pointers)[t])
      && (forall k: (Subject, FileName) :: k.0 != s ==> (k in files <==> k in old(files)))
      && (forall k: (Subject, FileName) :: k.0 != s && k in files ==> files[k] == old(files)[k])
    }

    /** Deleting files of a profile cannot make its slot hold anything new. */
    twostate lemma FewerFiles(s: Subject)
      requires forall k: (Subject, FileName) :: k in files ==> k in old(files) && files[k] == old(files)[k]
      requires s in pointers ==> s in old(pointers) && pointers[s] == old(pointers)[s]
      ensures Slot(s).None? || Slot(s) == old(Slot(s))
    {
    }

    twostate lemma OthersHold(s: Subject)
      requires OthersKept(s)
      ensures forall t :: t != s ==> Slot(t) == old(Slot(t))
      ensures forall t :: t != s && t in pointers ==> (Holds(t, pointers[t]) <==> old(Holds(t, pointers[t])))
    {
    }

    twostate lemma SoundStill(s: Subject)
      requires OthersKept(s) && old(Sound())
      requires s in pointers ==> Holds(s, pointers[s])
      requires forall k: (Subject, FileName) :: k in files && k.0 == s && k.1.Zip? ==> Sha(files[k]) == k.1.sha
      ensures Sound()
    {
      OthersHold(s);
      forall t | t in pointers
        ensures Holds(t, pointers[t])
      {
        if t != s {
          assert old(t in pointers && Holds(t, pointers[t]));
        }
      }
    }

    constructor ()
      ensures Valid() && Sound() && pointers == map[]
    {
      pointers, files, nextTemp := map[], map[], 0;
    }

    /** No archive is lost or changed, and at most the one of the reference is new. */
    twostate predicate Added(reference: Reference)
      reads this
    {
      && pointers == old(pointers)
      && (forall k: (Subject, FileName) :: k in old(files) ==> k in files && (k.1.Zip? ==> files[k] == old(files)[k]))
      && (forall k: (Subject, FileName) :: k in files && k !in old(files) && k.1.Zip? ==>
            k == (reference.subject, ArchiveOf(reference)) && Identified(files[k], reference))
    }

    /** Verified archives and temporary files may be added at any time. */
    twostate lemma SoundWithMore(reference: Reference)
      requires old(Sound()) && Added(reference)
      ensures Sound()
    {
      forall s | s in pointers
        ensures Holds(s, pointers[s])
      {
        assert old(s in pointers && Holds(s, pointers[s]));
      }
    }

    /** The temporary copy becomes the archive, unless that exists already; it never stays. */
    method MoveIntoPlace(reference: Reference, temporary: (Subject, FileName)) returns (r: Answer)
      requires temporary in files && temporary.1.Temp?
      modifies `files
      ensures var destination, rest := (reference.subject, ArchiveOf(reference)), old(files) - {temporary};
              && files == (if r.Done? && destination !in rest then rest[destination := old(files)[temporary]] else rest)
              && (r.Done? <==> && Identified(old(files)[temporary], reference)
                               && (destination in rest ==> Identified(rest[destination], reference)))
              && (!r.Done? ==>
                    r == Stopped(if Identified(old(files)[temporary], reference) then OtherError else StorageError))
    {
      var destination := (reference.subject, ArchiveOf(reference));
      if !Identified(files[temporary], reference) {
        r := Stopped(StorageError);
      } else if destination !in files {
        files := files[destination := files[temporary]];
        r := Done;
      } else {
        r := if Identified(files[destination], reference) then Done else Stopped(OtherError);
      }
      files := files - {temporary};
    }

    /** Puts a verified copy of the source under its content name; no pointer is touched. */
    method PublishArchive(reference: Reference, source: Option<Bytes>, fault: Option<Fault>) returns (r: Answer)
      requires Valid() && reference.subject.profileId != ""
      modifies `files, `nextTemp
      ensures Valid()
      ensures OthersKept(reference.subject) && Added(reference)
      ensures r.Done? ==> source.Some? && Identified(source.value, reference)
                          && (reference.subject, ArchiveOf(reference)) in files
                          && Identified(files[(reference.subject, ArchiveOf(reference))], reference)
                          && (fault.Some? ==> !fault.value.at.Preparing? && !fault.value.at.Copying?)
      ensures old(Sound()) ==> Sound()
      ensures r == if fault.Some? && (fault.value.at.Preparing? || fault.value.at.Copying?)
                   then PublishAnswer(reference, source, fault, old(Clear(reference)))
                   else PublishAnswer(reference, source, None, old(Clear(reference)))
    {
      if fault.Some? && fault.value.at.Preparing? { return Stopped(fault.value.how); }
      if source.None? { return Stopped(OtherError); }
      hide Identified, Clear, Added, OthersKept;
      if fault.Some? && fault.value.at.Copying? {
        LeaveCopy(reference, fault.value);
        r := Stopped(fault.value.how);
      } else {
        r := CopyAndMove(reference, source.value);
      }
      hide Sound;
      if old(Sound()) { SoundWithMore(reference); }
    }

    /** Copying is interrupted; a process that dies leaves what it has written. */
    method LeaveCopy(reference: Reference, fault: Fault)
      requires Valid() && fault.at.Copying?
      modifies `files, `nextTemp
      ensures Valid() && OthersKept(reference.subject) && Added(reference)
    {
      var temporary := (reference.subject, Temp(nextTemp));
      nextTemp := nextTemp + 1;
      if fault.how.Death? { files := files[temporary := fault.at.written]; }
    }

    method CopyAndMove(reference: Reference, data: Bytes) returns (r: Answer)
      requires Valid()
      modifies `files, `nextTemp
      ensures Valid()
      ensures OthersKept(reference.subject) && Added(reference)
      ensures var destination := (reference.subject, ArchiveOf(reference));
              && (r.Done? ==> destination in files && Identified(files[destination], reference))
              && files == (if r.Done? && destination !in old(files) then old(files)[destination := data] else old(files))
              && (r.Done? <==> Identified(data, reference) && old(Clear(reference)))
              && (!r.Done? ==> r == Stopped(if Identified(data, reference) then OtherError else StorageError))
    {
      hide Identified;
      var temporary := (reference.subject, Temp(nextTemp));
      nextTemp := nextTemp + 1;
      ghost var before := files;
      files := files[temporary := data];
      r := MoveIntoPlace(reference, temporary);
      assert before[temporary := data] - {temporary} == before;
    }

    /** Deletes what is neither the pointer nor the archive it names, in any order. */
    method Cleanup(s: Subject, archive: FileName, fault: Option<Fault>) returns (r: Answer)
      requires Valid()
      modifies `files
      ensures Valid()
      ensures OthersKept(s)
      ensures forall k :: k in files ==> k in old(files) && files[k] == old(files)[k]
      ensures (s, archive) in old(files) ==> (s, archive) in files
      ensures r.Done? <==> fault.None? || !fault.value.at.Cleaning?
      ensures r.Done? ==> forall k :: k in files && k.0 == s ==> k.1 == archive
      ensures !r.Done? ==> r == Stopped(fault.value.how)
    {
      var entries := set k | k in files && k.0 == s && k.1 != archive;
      var count := 0;
      while entries != {}
        invariant forall k :: k in files ==> k in old(files) && files[k] == old(files)[k]
        invariant forall k :: k in old(files) && (k.0 != s || k.1 == archive) ==> k in files
        invariant forall k :: k in files && k.0 == s && k.1 != archive ==> k in entries
        invariant forall k :: k in entries ==> k.0 == s && k.1 != archive
        decreases |entries|
      {
        if fault.Some? && fault.value.at.Cleaning? && fault.value.at.removed <= count { return Stopped(fault.value.how); }
        var entry :| entry in entries;
        files := files - {entry};
        entries := entries - {entry};
        count := count + 1;
      }
      if fault.Some? && fault.value.at.Cleaning? { return Stopped(fault.value.how); }
      return Done;
    }

    /** A new archive changes what a profile's slot holds only if the pointer already named it. */
    twostate lemma SlotKept(reference: Reference)
      requires Added(reference)
      ensures Slot(reference.subject) == Some(reference) || Slot(reference.subject) == old(Slot(reference.subject))
      ensures old(Sound()) ==> Slot(reference.subject) == old(Slot(reference.subject))
    {
      var s := reference.subject;
      if s in pointers && Holds(s, pointers[s]) && !old(Holds(s, pointers[s])) {
        assert pointers[s].reference == reference;
      }
    }

    method Publish(reference: Reference, source: Option<Bytes>, fault: Option<Fault>) returns (r: Answer)
      requires Valid()
      modifies this
      ensures Valid()
      ensures OthersKept(reference.subject)
      ensures forall t :: t != reference.subject ==> Slot(t) == old(Slot(t))
      ensures old(Sound()) ==> Sound()
      ensures Slot(reference.subject) == Some(reference) || Slot(reference.subject) == old(Slot(reference.subject))
      ensures old(Sound()) ==> Slot(reference.subject)
                               == if Commits(reference, source, fault) then Some(reference)
                                  else old(Slot(reference.subject))
      ensures r.Done? ==>
                && Commits(reference, source, fault) && Slot(reference.subject) == Some(reference)
                && forall k :: k in files && k.0 == reference.subject ==> k.1 == ArchiveOf(reference)
      ensures r == PublishAnswer(reference, source, fault, old(Clear(reference)))
    {
      hide Holds, Sound, Clear, Identified, Valid;
      var s := reference.subject;
      if s.profileId == "" { return Refused; }
      if old(Sound()) && source.Some? && Identified(source.value, reference) {
        IdentifiedSize(source.value, reference);
        SoundIsClear(reference);
      }
      r := PublishArchive(reference, source, fault);
      OthersHold(s);
      SlotKept(reference);
      if !r.Done? { return; }
      if fault.Some? && fault.value.at.BeforePointer? { return Stopped(fault.value.how); }
      r := PointAndClean(reference, fault);
      OthersHold(s);
    }

    method PointAndClean(reference: Reference, fault: Option<Fault>) returns (r: Answer)
      requires Valid()
      requires var k := (reference.subject, ArchiveOf(reference)); k in files && Identified(files[k], reference)
      modifies `pointers, `files
      ensures Valid()
      ensures OthersKept(reference.subject)
      ensures old(Sound()) ==> Sound()
      ensures Slot(reference.subject) == Some(reference)
      ensures r.Done? ==> forall k :: k in files && k.0 == reference.subject ==> k.1 == ArchiveOf(reference)
      ensures r == if fault.None? || (!fault.value.at.BeforeCleanup? && !fault.value.at.Cleaning?) then Done
                   else Stopped(fault.value.how)
    {
      var s := reference.subject;
      pointers := pointers[s := Metadata(reference, ArchiveOf(reference))];
      if fault.Some? && fault.value.at.BeforeCleanup? {
        r := Stopped(fault.value.how);
      } else {
        r := Cleanup(s, ArchiveOf(reference), fault);
      }
      if old(Sound()) {
        SoundStill(s);
      }
    }

    /** How resolving ends. */
    function ResolveAnswer(reference: Reference, fault: Option<Fault>): Resolved
      reads this
    {
      var s := reference.subject;
      if s.profileId == "" then BadReference
      else if fault.Some? && fault.value.at.Preparing? then Report(fault.value.how)
      else if s !in pointers then Absent
      else if pointers[s].reference != reference || pointers[s].archive != ArchiveOf(reference) then Corrupt
      else if (s, ArchiveOf(reference)) !in files then Absent
      else if !Identified(files[(s, ArchiveOf(reference))], reference) then Corrupt
      else if fault.Some? && fault.value.at.Cleaning? then Report(fault.value.how)
      else Hit(files[(s, ArchiveOf(reference))])
    }

    method Resolve(reference: Reference, fault: Option<Fault>) returns (r: Resolved)
      requires Valid()
      modifies `files
      ensures Valid()
      ensures OthersKept(reference.subject)
      ensures forall t :: t != reference.subject ==> Slot(t) == old(Slot(t))
      ensures Slot(reference.subject) == old(Slot(reference.subject))
      ensures old(Sound()) ==> Sound()
      ensures r.Hit? ==> Slot(reference.subject) == Some(reference) && Identified(r.data, reference)
      ensures r.Hit? <==> && old(Slot(reference.subject)) == Some(reference) && reference.subject.profileId != ""
                          && (fault.None? || (!fault.value.at.Preparing? && !fault.value.at.Cleaning?))
      ensures Clear(reference) == old(Clear(reference))
      ensures r == old(ResolveAnswer(reference, fault))
      ensures r.Hit? ==> forall k :: k in files && k.0 == reference.subject ==> k.1 == ArchiveOf(reference)
    {
      var s := reference.subject;
      if s.profileId == "" { return BadReference; }
      if fault.Some? && fault.value.at.Preparing? { return Report(fault.value.how); }
      if s !in pointers { return Absent; }
      var metadata := pointers[s];
      if metadata.reference != reference || metadata.archive != ArchiveOf(metadata.reference) { return Corrupt; }
      if (s, metadata.archive) !in files { return Absent; }
      var data := files[(s, metadata.archive)];
      if !Identified(data, metadata.reference) { return Corrupt; }
      var cleaned := Cleanup(s, metadata.archive, fault);
      if !cleaned.Done? { return Report(cleaned.how); }
      return Hit(data);
    }

    /** Deletes the directory; when it stops early, some of the files and perhaps the pointer
        are gone. */
    method Remove(s: Subject, fault: Option<Fault>) returns (r: Answer)
      requires Valid()
      modifies this
      ensures Valid()
      ensures OthersKept(s)
      ensures forall t :: t != s ==> Slot(t) == old(Slot(t))
      ensures Slot(s).None? || Slot(s) == old(Slot(s))
      ensures r == if fault.None? then Done else Stopped(fault.value.how)
      ensures r.Done? ==> Slot(s).None? && s !in pointers && forall k :: k in files ==> k.0 != s
      ensures fault.Some? && fault.value.at.Preparing? ==> files == old(files) && pointers == old(pointers)
      ensures old(Sound()) && r.Done? ==> Sound()
    {
      hide Holds;
      var stopped := RemoveTree(s, fault);
      assert OthersKept(s);
      OthersHold(s);
      if stopped {
        FewerFiles(s);
        return Stopped(fault.value.how);
      }
      if old(Sound()) {
        SoundStill(s);
      }
      return Done;
    }

    method RemoveTree(s: Subject, fault: Option<Fault>) returns (stopped: bool)
      modifies `files, `pointers
      ensures forall k :: k in files ==> k in old(files) && files[k] == old(files)[k]
      ensures forall k :: k in old(files) && k.0 != s ==> k in files
      ensures pointers == old(pointers) || pointers == old(pointers) - {s}
      ensures stopped <==> fault.Some?
      ensures !stopped ==> s !in pointers && forall k :: k in files ==> k.0 != s
      ensures fault.Some? && fault.value.at.Preparing? ==> files == old(files) && pointers == old(pointers)
    {
      if fault.Some? && fault.value.at.Preparing? { return true; }
      var entries := set k | k in files && k.0 == s;
      var gone := false;
      while entries != {}
        invariant forall k :: k in files ==> k in old(files) && files[k] == old(files)[k]
        invariant forall k :: k in old(files) && k.0 != s ==> k in files
        invariant forall k :: k in files && k.0 == s ==> k in entries
        invariant forall k :: k in entries ==> k.0 == s
        invariant pointers == if gone then old(pointers) - {s} else old(pointers)
        decreases |entries|
      {
        var stop: bool, turn: bool := *, *;
        if fault.Some? && stop { return true; }
        if turn && !gone {
          pointers := pointers - {s};
          gone := true;
        }
        var entry :| entry in entries;
        files := files - {entry};
        entries := entries - {entry};
      }
      if fault.Some? { return true; }
      if !gone { pointers := pointers - {s}; }
      return false;
    }

    /** The cache shows exactly these references. */
    ghost predicate Shows(slots: map<Subject, Reference>)
      reads this
    {
      forall s :: Slot(s) == Lookup(slots, s)
    }

    /** Every sequence of requests, faults included, is answered as by the map: a request to
        resolve hits exactly if its reference is the one last committed for the profile. */
    method Serve(requests: seq<Request>, ghost slots: map<Subject, Reference>) returns (hits: seq<bool>)
      requires Valid() && Sound() && Shows(slots)
      modifies this
      ensures Valid() && Sound() && Shows(SlotsAfterAll(slots, requests))
      ensures |hits| == |requests|
      ensures forall i :: 0 <= i < |requests| ==> hits[i] == Hits(SlotsAfterAll(slots, requests[..i]), requests[i])
    {
      hide SlotsAfter;
      hits := [];
      for n := 0 to |requests|
        invariant Valid() && Sound() && Shows(SlotsAfterAll(slots, requests[..n])) && |hits| == n
        invariant forall i :: 0 <= i < n ==> hits[i] == Hits(SlotsAfterAll(slots, requests[..i]), requests[i])
      {
        assert requests[..n + 1][..n] == requests[..n];
        var hit := ServeOne(requests[n], SlotsAfterAll(slots, requests[..n]));
        hits := hits + [hit];
      }
      assert requests[..|requests|] == requests;
    }

    method ServeOne(request: Request, ghost slots: map<Subject, Reference>) returns (hit: bool)
      requires Valid() && Sound() && Shows(slots)
      modifies this
      ensures Valid() && Sound() && Shows(SlotsAfter(slots, request))
      ensures hit == Hits(slots, request)
    {
      hide Holds, Slot;
      hit := false;
      match request {
        case Publishing(reference, source, fault) =>
          var _ := Publish(reference, source, fault);
        case Resolving(reference, fault) =>
          var r := Resolve(reference, fault);
          hit := r.Hit?;
        case Removing(s) =>
          var _ := Remove(s, None);
      }
    }
  }
}
