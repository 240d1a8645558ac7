/** Restoring a profile: from the cache if it has the archive, else by a download. Whatever the
    cache does, the result is the one a plain download would give. */
module RestoreArchive {
  import opened Bytes
  import opened Outcomes
  import opened ProfileCache

  /** The files of an unpacked profile, and unpacking, which some data does not allow. */
  type WorkTree = map<string, Bytes>
  type Unpacker = Bytes -> Option<WorkTree>

  /** What goes wrong around the restore: extractions, the download, the uses of the cache. */
  datatype Troubles = Troubles(
    resolving: Option<Fault>, extractingHit: bool, dropping: Option<Fault>,
    downloaded: Option<Bytes>, extracting: bool,
    replacing: Option<Fault>, publishing: Option<Fault>)

  datatype Restored = Complete | Broken(dead: bool)

  /** The download and its extraction succeed. */
  predicate DownloadWorks(unpack: Unpacker, reference: Reference, t: Troubles) {
    && t.downloaded.Some? && Identified(t.downloaded.value, reference)
    && unpack(t.downloaded.value).Some? && !t.extracting
  }

  /** The archive is identified again and then unpacked beside the work directory, which it
      replaces as a whole. */
  function Extraction(unpack: Unpacker, data: Bytes, reference: Reference, trouble: bool): Option<WorkTree> {
    if !trouble && Identified(data, reference) then unpack(data) else None
  }

  // ---------- When a restore succeeds ----------

  /** What comes of looking into the cache: a restore, a failure, or the need to download, with
      the entry found invalid and the place of the archive clear, or not. */
  datatype Use = Used | Unusable(dead: bool) | Refetch(invalid: bool, clear: bool)

  function CacheUse(unpack: Unpacker, resolved: Resolved, clear: bool, reference: Reference, t: Troubles): Use {
    match resolved
    case Hit(_) =>
      if Extraction(unpack, reference.sha.of, reference, t.extractingHit).Some? then Used
      else if t.dropping.Some? then Unusable(t.dropping.value.how.Death?) else Refetch(false, true)
    case Corrupt => Refetch(true, clear)
    case Absent | StorageTrouble => Refetch(false, clear)
    case Died => Unusable(true)
    case BadReference => Unusable(false)
  }

  /** Publishing worked, or failed in the one way that does not matter. */
  predicate Forgiven(a: Answer) {
    a.Done? || a == Stopped(StorageError)
  }

  /** How putting the downloaded archive into the cache ends the restore. */
  function Refilled(reference: Reference, invalid: bool, clear: bool, t: Troubles): Restored {
    if invalid && t.replacing.Some? then
      if t.replacing.value.how.StorageError? then Complete else Broken(t.replacing.value.how.Death?)
    else
      var answer := PublishAnswer(reference, t.downloaded, t.publishing, invalid || clear);
      if Forgiven(answer) then Complete else Broken(answer == Stopped(Death))
  }

  /** How a restore with a cache ends. */
  function Ending(unpack: Unpacker, use: Use, reference: Reference, t: Troubles): Restored {
    match use
    case Used => Complete
    case Unusable(dead) => Broken(dead)
    case Refetch(invalid, clear) =>
      if DownloadWorks(unpack, reference, t) then Refilled(reference, invalid, clear, t) else Broken(false)
  }

  predicate Restores(unpack: Unpacker, use: Use, reference: Reference, t: Troubles) {
    Ending(unpack, use, reference, t) == Complete
  }

  predicate Storage(fault: Option<Fault>) {
    fault.Some? ==> fault.value.how.StorageError?
  }

  /** When nothing worse than storage errors happens and a plain download would succeed, a cache
      spoils the restore in exactly two cases: its archive does not unpack and cannot be dropped;
      or something else is in the place of the archive, the cache did not find it invalid, and
      publishing gets far enough to meet it. */
  lemma CacheSpoilsIff(unpack: Unpacker, resolved: Resolved, clear: bool, reference: Reference, t: Troubles)
    requires DownloadWorks(unpack, reference, t) && reference.subject.profileId != ""
    requires !resolved.Died? && !resolved.BadReference? && Storage(t.replacing) && Storage(t.publishing)
    ensures !Restores(unpack, CacheUse(unpack, resolved, clear, reference, t), reference, t)
            <==>
            || (resolved.Hit? && Extraction(unpack, reference.sha.of, reference, t.extractingHit).None? && t.dropping.Some?)
            || ((resolved.Absent? || resolved.StorageTrouble?) && !clear
                && (t.publishing.Some? ==> !t.publishing.value.at.Preparing? && !t.publishing.value.at.Copying?))
  {
  }

  /** The first of these cases: the extraction from the cache and the removal of its archive both
      fail, and the good download is never made. */
  lemma UndroppableArchiveSpoils(unpack: Unpacker, reference: Reference, clear: bool, how: How)
    requires unpack(reference.sha.of).Some? && |reference.sha.of| == reference.size && reference.subject.profileId != ""
    ensures var data := reference.sha.of;
            var t := Troubles(None, true, Some(Fault(Preparing, how)), Some(data), false, None, None);
            && DownloadWorks(unpack, reference, t)
            && !Restores(unpack, CacheUse(unpack, Hit(data), clear, reference, t), reference, t)
  {
  }

  /** The second: a file of another content lies under the archive's name, and no pointer. */
  lemma ForeignFileSpoils(unpack: Unpacker, reference: Reference)
    requires unpack(reference.sha.of).Some? && |reference.sha.of| == reference.size && reference.subject.profileId != ""
    ensures var t := Troubles(None, false, None, Some(reference.sha.of), false, None, None);
            && DownloadWorks(unpack, reference, t)
            && !Restores(unpack, CacheUse(unpack, Absent, false, reference, t), reference, t)
  {
  }

  class Restorer {
    const unpack: Unpacker
    var workDir: Option<WorkTree>

    constructor (unpack: Unpacker)
      ensures this.unpack == unpack && workDir == None
    {
      this.unpack, workDir := unpack, None;
    }

    method ExtractAtomic(data: Bytes, reference: Reference, trouble: bool) returns (ok: bool)
      modifies this
      ensures ok <==> Extraction(unpack, data, reference, trouble).Some?
      ensures workDir == if ok then Extraction(unpack, data, reference, trouble) else old(workDir)
    {
      var tree := Extraction(unpack, data, reference, trouble);
      ok := tree.Some?;
      if ok { workDir := tree; }
    }

    /** Uses what the cache has. Nothing is returned if the download must follow. */
    method TryCache(cache: Cache, reference: Reference, t: Troubles) returns (r: Option<Restored>, invalidEntry: bool)
      requires cache.Valid()
      modifies this, cache
      ensures cache.Valid() && (old(cache.Sound()) && t.dropping.None? ==> cache.Sound())
      ensures forall s :: s != reference.subject ==> cache.Slot(s) == old(cache.Slot(s))
      ensures r == Some(Complete) ==> workDir == Extraction(unpack, reference.sha.of, reference, t.extractingHit)
                                      && workDir.Some? && cache.Slot(reference.subject) == Some(reference)
      ensures r != Some(Complete) ==> workDir == old(workDir)
      ensures var use := CacheUse(unpack, old(cache.ResolveAnswer(reference, t.resolving)), old(cache.Clear(reference)),
                                  reference, t);
              match use
              case Used => r == Some(Complete) && !invalidEntry
              case Unusable(dead) => r == Some(Broken(dead)) && !invalidEntry
              case Refetch(invalid, clear) =>
                r.None? && invalidEntry == invalid && (clear <==> cache.Clear(reference)) && reference.subject.profileId != ""
      // An archive that does not unpack is dropped before the download.
      ensures r.None? && old(cache.ResolveAnswer(reference, t.resolving)).Hit? ==> cache.Slot(reference.subject).None?
    {
      invalidEntry := false;
      var resolved := cache.Resolve(reference, t.resolving);
      match resolved {
        case Hit(data) =>
          var ok := ExtractAtomic(data, reference, t.extractingHit);
          if ok { return Some(Complete), false; }
          var dropped := cache.Remove(reference.subject, t.dropping);
          if !dropped.Done? { return Some(Broken(t.dropping.value.how.Death?)), false; }
        case Corrupt => invalidEntry := true;
        case Died => return Some(Broken(true)), false;
        case BadReference => return Some(Broken(false)), false;
        case _ =>
      }
      return None, invalidEntry;
    }

    /** Puts the downloaded archive into the cache; storage errors are forgiven. */
    method Refill(cache: Cache, reference: Reference, invalidEntry: bool, t: Troubles) returns (r: Restored)
      requires reference.subject.profileId != "" && cache.Valid()
      requires t.downloaded.Some? && Identified(t.downloaded.value, reference)
      modifies cache
      ensures cache.Valid() && (old(cache.Sound()) && t.replacing.None? ==> cache.Sound())
      ensures forall s :: s != reference.subject ==> cache.Slot(s) == old(cache.Slot(s))
      ensures r == Refilled(reference, invalidEntry, old(cache.Clear(reference)), t)
      ensures r.Complete? && t.replacing.None? && t.publishing.None? ==> cache.Slot(reference.subject) == Some(reference)
    {
      if invalidEntry {
        var dropped := cache.Remove(reference.subject, t.replacing);
        if !dropped.Done? {
          return if t.replacing.value.how.StorageError? then Complete else Broken(t.replacing.value.how.Death?);
        }
      }
      var published := cache.Publish(reference, t.downloaded, t.publishing);
      if Forgiven(published) { return Complete; }
      return Broken(published == Stopped(Death));
    }

    /** Whatever the cache does, a success gives what a plain download would give; and it is known
        for every combination of faults whether there is one. */
    method RestoreProfileArchive(cache: Cache?, reference: Reference, t: Troubles) returns (r: Restored)
      requires cache != null ==> cache.Valid()
      modifies this, cache
      ensures r.Complete? ==> |reference.sha.of| == reference.size
                              && unpack(reference.sha.of).Some? && workDir == unpack(reference.sha.of)
      ensures !r.Complete? ==> workDir == old(workDir)
                               || (DownloadWorks(unpack, reference, t) && workDir == unpack(reference.sha.of))
      ensures r == if cache == null then (if DownloadWorks(unpack, reference, t) then Complete else Broken(false))
                   else Ending(unpack, CacheUse(unpack, old(cache.ResolveAnswer(reference, t.resolving)),
                                                old(cache.Clear(reference)), reference, t), reference, t)
      ensures cache != null ==> cache.Valid()
      ensures cache != null && old(cache.Sound()) && t.dropping.None? && t.replacing.None? ==> cache.Sound()
      // The next restore finds the archive.
      ensures cache != null && r.Complete? && t.replacing.None? && t.publishing.None?
              ==> cache.Slot(reference.subject) == Some(reference)
      ensures cache != null ==> forall s :: s != reference.subject ==> cache.Slot(s) == old(cache.Slot(s))
    {
      var invalidEntry := false;
      if cache != null {
        var used: Option<Restored>;
        used, invalidEntry := TryCache(cache, reference, t);
        if used.Some? { return used.value; }
      }
      if t.downloaded.None? { return Broken(false); }
      var ok := ExtractAtomic(t.downloaded.value, reference, t.extracting);
      if !ok { return Broken(false); }
      if cache == null { return Complete; }
      r := Refill(cache, reference, invalidEntry, t);
    }
  }
}
