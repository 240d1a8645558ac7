/** The resumable download: a part file and a file with the entity tag of the version the part
    belongs to. A run is any number of tries, a try any number of requests; every file operation
    can fail or be the last thing the process does. */
module Download {
  import opened Bytes
  import opened Outcomes

  /** What a run leaves behind. */
  datatype Disk = Disk(part: Option<Bytes>, tag: Option<string>, dest: Option<Bytes>)

  datatype Step = Works | Fails | Dies

  /** Writing the tag file: complete, or cut short by an error or by the end of the process. */
  datatype Tagging = Whole | Torn(kept: nat, dies: bool)

  datatype Ending = StreamEnds | StreamBreaks | StreamDies

  /** A request: where to resume, and for which entity tag. */
  type Request = Option<(nat, string)>

  /** An answer; an absent header is empty or none. The body is what arrives of it. */
  datatype Reply = Lost | Reply(status: nat, tag: string, length: Option<nat>, body: Option<seq<Bytes>>)

  /** One request: the server's answer to whatever is asked, and the fate of the operations
      around it. */
  datatype Trip = Trip(
    partSeen: bool, tagRead: bool, server: Request -> Reply,
    dropPart: Step, dropTag: Step, opens: Step, tagging: Tagging, ending: Ending)

  datatype Try = Try(trips: seq<Trip>, moves: Step, forgets: Step)

  datatype End = Arrived | Retry | Fatal | Dead

  // ---------- One attempt ----------

  function Existing(d: Disk, t: Trip): nat {
    if t.partSeen && d.part.Some? then |d.part.value| else 0
  }

  function OldTag(d: Disk, t: Trip): string {
    if Existing(d, t) > 0 && t.tagRead then d.tag.GetOr("") else ""
  }

  function Asked(d: Disk, t: Trip, resume: bool): Request {
    if resume && Existing(d, t) > 0 && OldTag(d, t) != "" then Some((Existing(d, t), OldTag(d, t))) else None
  }

  /** The part and its tag are thrown away; failing to do so goes unnoticed. */
  function Discard(d: Disk, t: Trip): (Disk, bool) {
    var d1 := if t.dropPart.Works? then d.(part := None) else d;
    if t.dropPart.Dies? then (d1, false)
    else (if t.dropTag.Works? then d1.(tag := None) else d1, !t.dropTag.Dies?)
  }

  function Total(reply: Reply, append: bool, existing: nat, expected: Option<nat>): Option<nat>
    requires reply.Reply?
  {
    if reply.length.GetOr(0) > 0 then Some(reply.length.value + if append then existing else 0) else expected
  }

  /** The body is written behind the part, or into an empty one, after its tag. */
  function Store(d: Disk, t: Trip, reply: Reply, append: bool, existing: nat, expected: Option<nat>): (Disk, End)
    requires reply.Reply? && reply.body.Some? && (append ==> d.part.Some?)
  {
    if t.opens.Fails? then (d, Retry)
    else if t.opens.Dies? then (d, Dead)
    else
      var base := if append then d else d.(part := Some([]));
      if reply.tag != "" && t.tagging.Torn? then
        var kept := if t.tagging.kept < |reply.tag| then reply.tag[..t.tagging.kept] else reply.tag;
        (base.(tag := Some(kept)), if t.tagging.dies then Dead else Retry)
      else
        var written := Concat(reply.body.value);
        var after := base.(tag := if reply.tag != "" then Some(reply.tag) else base.tag,
                             part := Some(base.part.value + written));
        match t.ending
        case StreamDies => (after, Dead)
        case StreamBreaks => (after, Retry)
        case StreamEnds =>
          var total := Total(reply, append, existing, expected);
          (after, if total.Some? && total.value != |written| + (if append then existing else 0) then Fatal else Arrived)
  }

  predicate Appends(d: Disk, t: Trip, reply: Reply) {
    && reply.Reply? && Existing(d, t) > 0 && OldTag(d, t) != ""
    && reply.status == 206 && reply.tag == OldTag(d, t)
  }

  /** A complete answer to a request for a rest, or an unusable partial one: ask again for all. */
  predicate Restarts(d: Disk, t: Trip, resume: bool, reply: Reply) {
    reply.Reply? && ((Asked(d, t, resume).Some? && reply.status == 200)
                     || (reply.status == 206 && !Appends(d, t, reply)))
  }

  /** An attempt that runs out of requests ends like one that cannot reach the server. */
  function Attempt(d: Disk, expected: Option<nat>, resume: bool, trips: seq<Trip>): (Disk, End)
    decreases |trips|
  {
    if |trips| == 0 then (d, Retry)
    else
      var t := trips[0];
      var reply := t.server(Asked(d, t, resume));
      if reply.Lost? then (d, Retry)
      else
        var append := Appends(d, t, reply);
        var (d1, alive) := if Existing(d, t) > 0 && !append then Discard(d, t) else (d, true);
        if !alive then (d1, Dead)
        else if Restarts(d, t, resume, reply) then Attempt(d1, expected, false, trips[1..])
        else if !(200 <= reply.status < 300) || reply.body.None? then (d1, Fatal)
        else Store(d1, t, reply, append, Existing(d, t), expected)
  }

  /** Tries until one arrives and is moved into place. */
  function Tries(d: Disk, expected: Option<nat>, tries: seq<Try>): (Disk, End)
    decreases |tries|
  {
    if |tries| == 0 then (d, Fatal)
    else
      var (d1, end) := Attempt(d, expected, true, tries[0].trips);
      match end
      case Dead => (d1, Dead)
      case Fatal => (d1, Fatal)
      case Retry => Tries(d1, expected, tries[1..])
      case Arrived =>
        if tries[0].moves.Fails? then Tries(d1, expected, tries[1..])
        else if tries[0].moves.Dies? then (d1, Dead)
        else
          var moved := Disk(None, d1.tag, d1.part);
          (if tries[0].forgets.Works? then moved.(tag := None) else moved,
           if tries[0].forgets.Dies? then Dead else Arrived)
  }

  /** What the caller expects, what a HEAD request says, whether the disk has room. */
  datatype Run = Run(expected: Option<nat>, head: Option<nat>, room: bool, tries: seq<Try>)

  function Perform(d: Disk, run: Run): (Disk, End) {
    if !run.room then (d, Fatal)
    else Tries(d, if run.expected.Some? then run.expected else run.head, run.tries)
  }

  // ---------- The client ----------

  class Downloader {
    var part: Option<Bytes>
    var tag: Option<string>
    var dest: Option<Bytes>

    function Files(): Disk
      reads this
    {
      Disk(part, tag, dest)
    }

    constructor ()
      ensures Files() == Disk(None, None, None)
    {
      part, tag, dest := None, None, None;
    }

    method DownloadAttempt(expected: Option<nat>, resume: bool, trips: seq<Trip>) returns (end: End)
      modifies this
      ensures (Files(), end) == Attempt(old(Files()), expected, resume, trips)
      decreases |trips|
    {
      hide Store, Discard;
      if |trips| == 0 { return Retry; }
      var t := trips[0];
      var existing := if t.partSeen && part.Some? then |part.value| else 0;
      var oldTag := if existing > 0 && t.tagRead then tag.GetOr("") else "";
      var resumeRequested := resume && existing > 0 && oldTag != "";
      var reply := t.server(if resumeRequested then Some((existing, oldTag)) else None);
      if reply.Lost? { return Retry; }
      var append := existing > 0 && oldTag != "" && reply.status == 206 && reply.tag == oldTag;
      if existing > 0 && !append {
        var alive := DropPart(t);
        if !alive { return Dead; }
      }
      if (resumeRequested && reply.status == 200) || (reply.status == 206 && !append) {
        end := DownloadAttempt(expected, false, trips[1..]);
        return;
      }
      if !(200 <= reply.status < 300) { return Fatal; }
      if reply.body.None? { return Fatal; }
      end := Receive(t, reply, append, existing, expected);
    }

    method DropPart(t: Trip) returns (alive: bool)
      modifies this
      ensures (Files(), alive) == Discard(old(Files()), t)
    {
      if t.dropPart.Works? { part := None; }
      if t.dropPart.Dies? { return false; }
      if t.dropTag.Works? { tag := None; }
      return !t.dropTag.Dies?;
    }

    method Receive(t: Trip, reply: Reply, append: bool, existing: nat, expected: Option<nat>) returns (end: End)
      requires reply.Reply? && reply.body.Some? && (append ==> part.Some?)
      modifies this
      ensures (Files(), end) == Store(old(Files()), t, reply, append, existing, expected)
    {
      var total := if reply.length.GetOr(0) == 0 then expected
                   else if append then Some(existing + reply.length.value) else reply.length;
      if t.opens.Fails? { return Retry; }
      if t.opens.Dies? { return Dead; }
      if !append { part := Some([]); }
      var downloaded := if append then existing else 0;
      if reply.tag != "" {
        if t.tagging.Torn? {
          tag := Some(if t.tagging.kept < |reply.tag| then reply.tag[..t.tagging.kept] else reply.tag);
          return if t.tagging.dies then Dead else Retry;
        }
        tag := Some(reply.tag);
      }
      ghost var before, start := part.value, downloaded;
      var chunks := reply.body.value;
      assert before + [] == before;
      for i := 0 to |chunks|
        invariant part == Some(before + Concat(chunks[..i]))
        invariant downloaded == start + |Concat(chunks[..i])|
        invariant tag == (if reply.tag != "" then Some(reply.tag) else old(tag)) && dest == old(dest)
      {
        ConcatLast(chunks, i);
        assert before + (Concat(chunks[..i]) + chunks[i]) == before + Concat(chunks[..i]) + chunks[i];
        part := Some(part.value + chunks[i]);
        downloaded := downloaded + |chunks[i]|;
      }
      assert chunks[..|chunks|] == chunks;
      if t.ending.StreamDies? { return Dead; }
      if t.ending.StreamBreaks? { return Retry; }
      if total.Some? && downloaded != total.value { return Fatal; }
      return Arrived;
    }

    method DownloadVerifiedSource(run: Run) returns (end: End)
      modifies this
      ensures (Files(), end) == Perform(old(Files()), run)
    {
      var expected := if run.expected.Some? then run.expected else run.head;
      if !run.room { return Fatal; }
      for attempt := 0 to |run.tries|
        invariant Tries(Files(), expected, run.tries[attempt..]) == Tries(old(Files()), expected, run.tries)
      {
        var try := run.tries[attempt];
        assert run.tries[attempt..][0] == try && run.tries[attempt..][1..] == run.tries[attempt + 1..];
        end := DownloadAttempt(expected, true, try.trips);
        if end.Dead? || end.Fatal? { return; }
        if end.Retry? || try.moves.Fails? { continue; }
        if try.moves.Dies? { return Dead; }
        part, dest := None, part;
        if try.forgets.Works? { tag := None; }
        if try.forgets.Dies? { return Dead; }
        return Arrived;
      }
      return Fatal;
    }
  }

  /** A part that the server refuses to continue is not kept for the next try. */
  lemma RefusedPartIsGone(d: Disk, expected: Option<nat>, resume: bool, trips: seq<Trip>)
    requires |trips| > 0 && Existing(d, trips[0]) > 0 && trips[0].dropPart.Works? && trips[0].dropTag.Works?
    requires var reply := trips[0].server(Asked(d, trips[0], resume)); reply.Reply? && !(200 <= reply.status < 300)
    ensures Attempt(d, expected, resume, trips) == (Disk(None, None, d.dest), Fatal)
  {
  }

  // ---------- Servers ----------

  predicate TagChar(c: char) {
    c == '!' || '#' <= c
  }

  /** A strong entity tag (section 8.8.3 of RFC 9110). */
  predicate EntityTag(s: string) {
    |s| >= 2 && s[0] == '"' && s[|s| - 1] == '"' && forall i :: 1 <= i < |s| - 1 ==> TagChar(s[i])
  }

  lemma PrefixIsNoTag(s: string, k: nat)
    requires EntityTag(s) && k < |s|
    ensures !EntityTag(s[..k])
  {
    if k >= 2 {
      assert s[..k][k - 1] == s[k - 1] && TagChar(s[k - 1]);
    }
  }

  /** The versions of the file, by entity tag. */
  type Versions = string -> Bytes

  /** What a complete answer, or a partial one, is a copy of. */
  ghost function Representation(versions: Versions, request: Request, reply: Reply): Bytes
    requires reply.Reply?
  {
    var version := versions(reply.tag);
    if reply.status == 206 && request.Some? && request.value.0 <= |version| then version[request.value.0..] else version
  }

  /** An answer names the version it copies. A partial answer is given only to a request for a
      range, and if it names the version asked for the range lies in it. The body arrives from
      its start, and a stated length is its length (sections 13.1.5, 14.2 and 15.3.7 of RFC 9110). */
  ghost predicate HonestReply(versions: Versions, request: Request, reply: Reply) {
    reply.Reply? && 200 <= reply.status < 300 ==> (
      && EntityTag(reply.tag)
      && (reply.status == 206 ==>
            request.Some? && (reply.tag == request.value.1 ==> request.value.0 <= |versions(reply.tag)|))
      && (reply.length.Some? ==> reply.length.value == |Representation(versions, request, reply)|)
      && (reply.body.Some? ==> Concat(reply.body.value) <= Representation(versions, request, reply)))
  }

  ghost predicate Honest(versions: Versions, t: Trip) {
    forall request :: HonestReply(versions, request, t.server(request))
  }

  ghost predicate HonestTries(versions: Versions, tries: seq<Try>) {
    forall i, j :: 0 <= i < |tries| && 0 <= j < |tries[i].trips| ==> Honest(versions, tries[i].trips[j])
  }

  /** Successful answers state their length. */
  ghost predicate Sized(t: Trip) {
    forall request :: var reply := t.server(request);
                      reply.Reply? && 200 <= reply.status < 300 ==> reply.length.Some?
  }

  ghost predicate SizedTrips(trips: seq<Trip>) {
    forall j :: 0 <= j < |trips| ==> Sized(trips[j])
  }

  ghost predicate SizedTries(tries: seq<Try>) {
    forall i :: 0 <= i < |tries| ==> SizedTrips(tries[i].trips)
  }

  // ---------- The part is always the start of the version it is tagged with ----------

  ghost predicate Consistent(versions: Versions, d: Disk) {
    (d.part.Some? && d.part.value != [] && d.tag.Some? && EntityTag(d.tag.value)) ==>
      d.part.value <= versions(d.tag.value)
  }

  /** The bytes are the start of one version, and all of it if lengths are stated. */
  ghost predicate OneVersion(versions: Versions, data: Option<Bytes>, whole: bool) {
    exists tag :: EntityTag(tag) && data.Some? && data.value <= versions(tag) && (whole ==> data.value == versions(tag))
  }

  lemma DiscardKeeps(versions: Versions, d: Disk, t: Trip)
    requires Consistent(versions, d)
    ensures Consistent(versions, Discard(d, t).0)
  {
  }

  /** What Store may start from: an honest answer, and behind a part only its own rest. */
  ghost predicate Storable(versions: Versions, d: Disk, reply: Reply, append: bool, existing: nat) {
    && reply.Reply? && reply.body.Some? && EntityTag(reply.tag)
    && var version := versions(reply.tag);
       var rest := if append && existing <= |version| then version[existing..] else version;
       && (reply.length.Some? ==> reply.length.value == |rest|)
       && Concat(reply.body.value) <= rest
       && (append ==> d.part.Some? && |d.part.value| == existing && d.part.value <= version)
  }

  lemma TagIsNotEmpty(tag: string)
    requires EntityTag(tag)
    ensures tag != ""
  {
  }

  lemma ExtendsVersion(version: Bytes, start: Bytes, written: Bytes)
    requires start <= version && written <= version[|start|..]
    ensures start + written <= version
    ensures |start + written| == |version| ==> start + written == version
  {
    assert start + written == version[..|start + written|];
  }

  lemma StoreKeeps(versions: Versions, d: Disk, t: Trip, reply: Reply, append: bool, existing: nat, expected: Option<nat>)
    requires Storable(versions, d, reply, append, existing) && Consistent(versions, d)
    ensures var (d', end) := Store(d, t, reply, append, existing, expected);
            && Consistent(versions, d') && d'.dest == d.dest
            && (end.Arrived? ==> OneVersion(versions, d'.part, reply.length.Some?))
            && (end.Arrived? && reply.length.None? && expected.Some? ==> |d'.part.value| == expected.value)
  {
    hide EntityTag, Concat;
    TagIsNotEmpty(reply.tag);
    if t.opens.Works? {
      if t.tagging.Torn? {
        if t.tagging.kept < |reply.tag| {
          PrefixIsNoTag(reply.tag, t.tagging.kept);
        }
      } else {
        var start := if append then d.part.value else [];
        assert versions(reply.tag)[0..] == versions(reply.tag);
        ExtendsVersion(versions(reply.tag), start, Concat(reply.body.value));
        assert EntityTag(reply.tag);
      }
    }
  }

  /** An honest answer may be stored where an attempt stores it. */
  lemma TripStores(versions: Versions, d: Disk, t: Trip, resume: bool, d1: Disk)
    requires Consistent(versions, d)
    requires var request := Asked(d, t, resume);
             var reply := t.server(request);
             && HonestReply(versions, request, reply) && reply.Reply? && 200 <= reply.status < 300 && reply.body.Some?
             && !Restarts(d, t, resume, reply)
             && (Appends(d, t, reply) ==> d1 == d)
    ensures var reply := t.server(Asked(d, t, resume));
            Storable(versions, d1, reply, Appends(d, t, reply), Existing(d, t))
  {
    hide EntityTag, Concat;
    var request := Asked(d, t, resume);
    var reply := t.server(request);
    if Appends(d, t, reply) {
      assert request.Some?;
      assert d.tag == Some(reply.tag);
      assert d.part.value <= versions(reply.tag);
      assert Representation(versions, request, reply) == versions(reply.tag)[Existing(d, t)..];
    } else {
      assert reply.status != 206;
      assert Representation(versions, request, reply) == versions(reply.tag);
    }
  }

  lemma {:induction false} AttemptKeeps(versions: Versions, d: Disk, expected: Option<nat>, resume: bool, trips: seq<Trip>)
    requires Consistent(versions, d) && forall j :: 0 <= j < |trips| ==> Honest(versions, trips[j])
    ensures var (d', end) := Attempt(d, expected, resume, trips);
            && Consistent(versions, d') && d'.dest == d.dest
            && (end.Arrived? ==> OneVersion(versions, d'.part, SizedTrips(trips)))
    decreases |trips|
  {
    hide Store, EntityTag, Storable, HonestReply, Consistent;
    if |trips| > 0 {
      var t := trips[0];
      assert Honest(versions, t);
      var request := Asked(d, t, resume);
      var reply := t.server(request);
      var append := Appends(d, t, reply);
      var (d1, alive) := if Existing(d, t) > 0 && !append then Discard(d, t) else (d, true);
      DiscardKeeps(versions, d, t);
      if reply.Reply? && alive {
        if Restarts(d, t, resume, reply) {
          AttemptKeeps(versions, d1, expected, false, trips[1..]);
          assert SizedTrips(trips) ==> SizedTrips(trips[1..]);
        } else if 200 <= reply.status < 300 && reply.body.Some? {
          TripStores(versions, d, t, resume, d1);
          StoreKeeps(versions, d1, t, reply, append, Existing(d, t), expected);
          assert SizedTrips(trips) ==> Sized(t);
        }
      }
    }
  }

  lemma {:induction false} TriesKeep(versions: Versions, d: Disk, expected: Option<nat>, tries: seq<Try>)
    requires Consistent(versions, d) && HonestTries(versions, tries)
    ensures var (d', end) := Tries(d, expected, tries);
            && Consistent(versions, d')
            && (d'.dest == d.dest || OneVersion(versions, d'.dest, SizedTries(tries)))
            && (end.Arrived? ==> OneVersion(versions, d'.dest, SizedTries(tries)))
    decreases |tries|
  {
    hide Attempt, Honest, Sized, EntityTag;
    if |tries| > 0 {
      AttemptKeeps(versions, d, expected, true, tries[0].trips);
      var (d1, end) := Attempt(d, expected, true, tries[0].trips);
      assert SizedTries(tries) ==> SizedTrips(tries[0].trips);
      if end.Retry? || (end.Arrived? && tries[0].moves.Fails?) {
        TriesKeep(versions, d1, expected, tries[1..]);
        assert SizedTries(tries) ==> SizedTries(tries[1..]);
      }
    }
  }

  // ---------- Whole histories ----------

  function History(d: Disk, runs: seq<Run>): Disk
    decreases |runs|
  {
    if |runs| == 0 then d else History(Perform(d, runs[0]).0, runs[1..])
  }

  ghost predicate HonestRuns(versions: Versions, runs: seq<Run>) {
    forall i :: 0 <= i < |runs| ==> HonestTries(versions, runs[i].tries)
  }

  /** However runs fail, stop or find a new version on the server, the part stays the start of
      the version its tag names, and a downloaded file is never spliced from two versions. */
  lemma {:induction false} NeverSpliced(versions: Versions, d: Disk, runs: seq<Run>)
    requires Consistent(versions, d) && HonestRuns(versions, runs)
    ensures var d' := History(d, runs);
            && Consistent(versions, d')
            && (d'.dest == d.dest || OneVersion(versions, d'.dest, false))
    decreases |runs|
  {
    hide Tries, Consistent, HonestTries;
    if |runs| > 0 {
      var run := runs[0];
      if run.room {
        TriesKeep(versions, d, if run.expected.Some? then run.expected else run.head, run.tries);
      }
      NeverSpliced(versions, Perform(d, run).0, runs[1..]);
    }
  }

  /** After any history, a run that arrives with stated lengths has one whole version. */
  lemma ArrivesWhole(versions: Versions, runs: seq<Run>, last: Run)
    requires HonestRuns(versions, runs) && HonestTries(versions, last.tries) && SizedTries(last.tries)
    ensures var (d, end) := Perform(History(Disk(None, None, None), runs), last);
            end.Arrived? ==> exists tag :: EntityTag(tag) && d.dest == Some(versions(tag))
  {
    hide Tries, HonestTries, EntityTag;
    NeverSpliced(versions, Disk(None, None, None), runs);
    var before := History(Disk(None, None, None), runs);
    if last.room {
      TriesKeep(versions, before, if last.expected.Some? then last.expected else last.head, last.tries);
    }
  }

  // ---------- A size that is known beforehand ----------

  /** Answers state no length, or zero. */
  ghost predicate Unsized(t: Trip) {
    forall request :: var reply := t.server(request); reply.Reply? ==> reply.length.GetOr(0) == 0
  }

  ghost predicate UnsizedTries(tries: seq<Try>) {
    forall i, j :: 0 <= i < |tries| && 0 <= j < |tries[i].trips| ==> Unsized(tries[i].trips[j])
  }

  predicate HasSize(data: Option<Bytes>, size: nat) {
    data.Some? && |data.value| == size
  }

  lemma {:induction false} AttemptHasSize(d: Disk, size: nat, resume: bool, trips: seq<Trip>)
    requires forall j :: 0 <= j < |trips| ==> Unsized(trips[j])
    ensures var (d', end) := Attempt(d, Some(size), resume, trips); end.Arrived? ==> HasSize(d'.part, size)
    decreases |trips|
  {
    hide Concat;
    if |trips| > 0 {
      var t := trips[0];
      assert Unsized(t);
      var reply := t.server(Asked(d, t, resume));
      var (d1, alive) := if Existing(d, t) > 0 && !Appends(d, t, reply) then Discard(d, t) else (d, true);
      if Restarts(d, t, resume, reply) {
        AttemptHasSize(d1, size, false, trips[1..]);
      }
    }
  }

  lemma {:induction false} TriesHaveSize(d: Disk, size: nat, tries: seq<Try>)
    requires UnsizedTries(tries)
    ensures var (d', end) := Tries(d, Some(size), tries); end.Arrived? ==> HasSize(d'.dest, size)
    decreases |tries|
  {
    hide Attempt, Unsized;
    if |tries| > 0 {
      AttemptHasSize(d, size, true, tries[0].trips);
      var (d1, end) := Attempt(d, Some(size), true, tries[0].trips);
      if end.Retry? || (end.Arrived? && tries[0].moves.Fails?) {
        TriesHaveSize(d1, size, tries[1..]);
      }
    }
  }

  /** If answers state no length, a run arrives only with as many bytes as the caller expected
      or, failing that, as a HEAD request promised - whatever was on disk and whatever the server
      gave. */
  lemma KnownSizeIsKept(d: Disk, run: Run)
    requires UnsizedTries(run.tries) && (run.expected.Some? || run.head.Some?)
    ensures var (d', end) := Perform(d, run);
            end.Arrived? ==> HasSize(d'.dest, if run.expected.Some? then run.expected.value else run.head.value)
  {
    hide Tries, Unsized;
    TriesHaveSize(d, if run.expected.Some? then run.expected.value else run.head.value, run.tries);
  }

  /** ... so with an honest server and the size of its one version of that size, the file is that
      version. */
  lemma KnownSizeArrivesWhole(versions: Versions, runs: seq<Run>, last: Run, size: nat)
    requires HonestRuns(versions, runs) && HonestTries(versions, last.tries) && UnsizedTries(last.tries)
    requires last.expected == Some(size) || (last.expected.None? && last.head == Some(size))
    requires forall tag :: EntityTag(tag) ==> |versions(tag)| <= size
    ensures var (d, end) := Perform(History(Disk(None, None, None), runs), last);
            end.Arrived? ==> exists tag :: EntityTag(tag) && d.dest == Some(versions(tag))
  {
    hide Tries, HonestTries, EntityTag, Unsized;
    NeverSpliced(versions, Disk(None, None, None), runs);
    var before := History(Disk(None, None, None), runs);
    KnownSizeIsKept(before, last);
    if last.room {
      TriesKeep(versions, before, Some(size), last.tries);
      var (d, end) := Perform(before, last);
      if end.Arrived? {
        var tag :| EntityTag(tag) && d.dest.Some? && d.dest.value <= versions(tag);
        assert d.dest.value == versions(tag)[..size] == versions(tag);
      }
    }
  }

  // ---------- An answer without an entity tag ----------

  /** The disk after (part of) the body of a complete answer without a tag was stored. */
  function StoredUntagged(d: Disk, written: Bytes): Disk {
    d.(part := Some(written))
  }

  /** Storing an untagged body, however its stream ends, is safe for every server exactly when no
      entity tag is left over from another version; the client checks for one only if there is a
      part, too. */
  lemma UntaggedIsSafeIff(d: Disk, t: Trip, expected: Option<nat>)
    requires t.opens.Works?
    ensures (d.tag.Some? && EntityTag(d.tag.value))
            <==> exists versions: Versions, body: Bytes ::
                   Consistent(versions, d) && !Consistent(versions, StoredUntagged(d, body))
    ensures forall length, body ::
              Store(d, t, Reply(200, "", length, Some([body])), false, 0, expected).0 == StoredUntagged(d, body)
  {
    forall length, body: Bytes
      ensures Store(d, t, Reply(200, "", length, Some([body])), false, 0, expected).0 == StoredUntagged(d, body)
    {
      assert Concat([body]) == body && [] + body == body;
    }
    if d.tag.Some? && EntityTag(d.tag.value) {
      var versions: Versions := (tag: string) => d.part.GetOr([]);
      var body := d.part.GetOr([]) + [0];
      assert Consistent(versions, d) && !Consistent(versions, StoredUntagged(d, body));
    }
  }

  const TAG := "\"a\""

  function SmoothTrip(reply: Reply, ending: Ending): Trip {
    Trip(true, true, (request: Request) => reply, Works, Works, Works, Whole, ending)
  }

  function FirstTry(): Try {
    Try([SmoothTrip(Reply(200, TAG, Some(2), Some([[1, 1]])), StreamEnds)], Works, Fails)
  }

  function UntaggedTry(): Try {
    Try([SmoothTrip(Reply(200, "", Some(2), Some([[2]])), StreamBreaks)], Works, Works)
  }

  function ResumedTry(): Try {
    Try([SmoothTrip(Reply(206, TAG, Some(1), Some([[1]])), StreamEnds)], Works, Works)
  }

  /** How a splice comes about. One version is downloaded, but its tag file cannot be deleted;
      another version comes without a tag and is cut short; the first version is back and
      honestly gives the rest of itself. */
  lemma SpliceWithoutTag()
    ensures History(Disk(None, None, None),
                    [Run(None, None, true, [FirstTry()]), Run(None, None, true, [UntaggedTry(), ResumedTry()])])
            == Disk(None, None, Some([2, 1]))
    ensures EntityTag(TAG)
  {
    hide Tries, FirstTry, UntaggedTry, ResumedTry;
    FirstRun();
    LastRun();
    var last := [Run(None, None, true, [UntaggedTry(), ResumedTry()])];
    var d := Disk(None, Some(TAG), Some([1, 1]));
    assert Perform(d, last[0]).0 == Disk(None, None, Some([2, 1]));
    assert History(d, last) == History(Disk(None, None, Some([2, 1])), last[1..]);
    assert ([Run(None, None, true, [FirstTry()])] + last)[1..] == last;
  }

  lemma FirstRun()
    ensures Tries(Disk(None, None, None), None, [FirstTry()]) == (Disk(None, Some(TAG), Some([1, 1])), Arrived)
  {
    assert Concat([[1, 1]]) == [1, 1];
    var d := Disk(None, None, None);
    var t := FirstTry().trips[0];
    assert t.server(Asked(d, t, true)) == Reply(200, TAG, Some(2), Some([[1, 1]]));
    assert [] + [1, 1] == [1, 1];
    assert Store(d, t, t.server(None), false, 0, None) == (Disk(Some([1, 1]), Some(TAG), None), Arrived);
    assert Attempt(d, None, true, FirstTry().trips) == (Disk(Some([1, 1]), Some(TAG), None), Arrived);
  }

  lemma LastRun()
    ensures Tries(Disk(None, Some(TAG), Some([1, 1])), None, [UntaggedTry(), ResumedTry()])
            == (Disk(None, None, Some([2, 1])), Arrived)
  {
    assert Concat([[2]]) == [2] && Concat([[1]]) == [1];
    var d := Disk(None, Some(TAG), Some([1, 1]));
    var cut := Disk(Some([2]), Some(TAG), Some([1, 1]));
    var t, u := UntaggedTry().trips[0], ResumedTry().trips[0];
    assert t.server(Asked(d, t, true)) == Reply(200, "", Some(2), Some([[2]]));
    assert [] + [2] == [2] && [2] + [1] == [2, 1];
    assert Attempt(d, None, true, UntaggedTry().trips) == (cut, Retry);
    assert Asked(cut, u, true) == Some((1, TAG));
    assert u.server(Asked(cut, u, true)) == Reply(206, TAG, Some(1), Some([[1]]));
    assert Attempt(cut, None, true, ResumedTry().trips) == (Disk(Some([2, 1]), Some(TAG), Some([1, 1])), Arrived);
    assert [UntaggedTry(), ResumedTry()][1..] == [ResumedTry()];
  }
}
