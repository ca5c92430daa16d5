/** Install, update and remove of a managed agent document. SHA-256, the record's JSON
    form, the marketplace and the clock are parameters; operations on one slug are
    serialised by the lock. */
module AgentLifecycle {
  import opened Wrappers
  import opened AgentFiles

  const RECORD_SCHEMA := "bb-agent-install/v1"

  datatype Artifact = Artifact(id: string, sha256: string, sizeBytes: nat, mediaType: string)
  datatype Source = Source(sourceId: string, snapshotId: string, revision: string, path: string)

  datatype Metadata = Metadata(
    schemaVersion: string, kind: string, slug: string, versionId: string, contentSha256: string,
    installedFileSha256: string, artifact: Artifact, source: Source, serverUrl: string,
    installedAt: string, installedVia: string)

  datatype Formats = Formats(hash: Bytes -> string, parse: Bytes -> Option<Metadata>, render: Metadata -> Bytes)

  ghost predicate RoundTrips(f: Formats) {
    forall m: Metadata :: f.parse(f.render(m)) == Some(m)
  }

  predicate ValidSlug(slug: string) {
    slug != "" && forall i :: 0 <= i < |slug| ==> 'a' <= slug[i] <= 'z' || '0' <= slug[i] <= '9' || slug[i] in "-_"
  }

  // ---------------------------------------------------------------- classification

  datatype Reason = RecordUnusable | RecordForeign | DocumentDiffers | DocumentNotRegular

  datatype Ownership =
    | Absent
    | ManagedExact(metadata: Metadata)
    | ManagedMissingFile(metadata: Metadata)
    | ProtectedConflict(reason: Reason)

  datatype Stat = NotFound | Unknown | Found(node: Node)

  /** What `symlink_metadata` says; paths in `unreadable` answer with another error. */
  function StatOf(n: Nodes, unreadable: set<Path>, p: Path): Stat {
    if p in unreadable then Unknown else if p in n then Found(n[p]) else NotFound
  }

  predicate ForSlug(m: Metadata, slug: string) {
    m.schemaVersion == RECORD_SCHEMA && m.kind == "agent" && m.slug == slug
  }

  /** The record, or why it is of no use. `locked` holds the files that cannot be read. */
  function ReadRecord(n: Nodes, f: Formats, unreadable: set<Path>, locked: set<Path>, slug: string)
    : (Option<Metadata>, Reason)
  {
    match StatOf(n, unreadable, Rec(slug))
    case Found(File(bytes)) =>
      if Rec(slug) in locked then (None, RecordUnusable)
      else (match f.parse(bytes)
            case None => (None, RecordUnusable)
            case Some(m) => if ForSlug(m, slug) then (Some(m), RecordUnusable) else (None, RecordForeign))
    case _ => (None, RecordUnusable)
  }

  /** `None` stands for the error result. */
  function Classify(n: Nodes, f: Formats, unreadable: set<Path>, locked: set<Path>, slug: string): Option<Ownership> {
    var target, state := StatOf(n, unreadable, Doc(slug)), StatOf(n, unreadable, Rec(slug));
    if !ValidSlug(slug) then None
    else if target.NotFound? && state.NotFound? then Some(Absent)
    else
      var (record, reason) := ReadRecord(n, f, unreadable, locked, slug);
      match record
      case None => Some(ProtectedConflict(reason))
      case Some(m) =>
        match target
        case NotFound => Some(ManagedMissingFile(m))
        case Found(File(bytes)) =>
          if Doc(slug) in locked then None
          else if f.hash(bytes) == m.installedFileSha256 then Some(ManagedExact(m))
          else Some(ProtectedConflict(DocumentDiffers))
        case _ => Some(ProtectedConflict(DocumentNotRegular))
  }

  /** A readable record of this slug. */
  ghost predicate Recorded(n: Nodes, f: Formats, slug: string, m: Metadata) {
    Rec(slug) in n && n[Rec(slug)].File? && f.parse(n[Rec(slug)].bytes) == Some(m) && ForSlug(m, slug)
  }

  ghost predicate Exact(n: Nodes, f: Formats, slug: string, m: Metadata) {
    Recorded(n, f, slug, m) && Doc(slug) in n && n[Doc(slug)].File? &&
        f.hash(n[Doc(slug)].bytes) == m.installedFileSha256
  }

  ghost predicate Orphaned(n: Nodes, f: Formats, slug: string, m: Metadata) {
    Recorded(n, f, slug, m) && Doc(slug) !in n
  }

  /** The record proves that the document, if there is one, is ours. */
  ghost predicate Owned(n: Nodes, f: Formats, slug: string) {
    exists m :: Exact(n, f, slug, m) || Orphaned(n, f, slug, m)
  }

  /** Unreadable files never make an answer better than the files deserve. */
  lemma ClassifyIsSound(n: Nodes, f: Formats, unreadable: set<Path>, locked: set<Path>, slug: string)
    requires Classify(n, f, unreadable, locked, slug).Some?
    ensures match Classify(n, f, unreadable, locked, slug).value
            case Absent => Gone(n, slug)
            case ManagedExact(m) => Exact(n, f, slug, m)
            case ManagedMissingFile(m) => Orphaned(n, f, slug, m)
            case ProtectedConflict(_) => true
  {
  }

  /** With readable files the answer is exact. */
  lemma ClassifyIsExact(n: Nodes, f: Formats, slug: string, m: Metadata)
    requires ValidSlug(slug)
    ensures Classify(n, f, {}, {}, slug) == Some(ManagedExact(m)) <==> Exact(n, f, slug, m)
    ensures Classify(n, f, {}, {}, slug) == Some(ManagedMissingFile(m)) <==> Orphaned(n, f, slug, m)
    ensures Classify(n, f, {}, {}, slug) == Some(Absent) <==> Gone(n, slug)
    ensures Classify(n, f, {}, {}, slug).value.ProtectedConflict? <==> !Gone(n, slug) && !Owned(n, f, slug)
  {
    var c := Classify(n, f, {}, {}, slug).value;
    if c.ManagedExact? || c.ManagedMissingFile? {
      assert Exact(n, f, slug, c.metadata) || Orphaned(n, f, slug, c.metadata);
    }
  }

  /** A record that can be read but is of another schema, kind or slug. */
  ghost predicate Foreign(n: Nodes, f: Formats, slug: string) {
    && Rec(slug) in n && n[Rec(slug)].File? && f.parse(n[Rec(slug)].bytes).Some?
    && var m := f.parse(n[Rec(slug)].bytes).value;
       m.schemaVersion != "bb-agent-install/v1" || m.kind != "agent" || m.slug != slug
  }

  /** Why a pair is protected, with readable files. */
  lemma ConflictReasons(n: Nodes, f: Formats, slug: string)
    requires ValidSlug(slug) && !Gone(n, slug) && !Owned(n, f, slug)
    ensures var c := Classify(n, f, {}, {}, slug);
            && c.Some? && c.value.ProtectedConflict?
            && (c.value.reason.RecordForeign? <==> Foreign(n, f, slug))
            && (c.value.reason.RecordUnusable? <==>
                  !(Rec(slug) in n && n[Rec(slug)].File? && f.parse(n[Rec(slug)].bytes).Some?))
            && (c.value.reason.DocumentNotRegular? ==> Doc(slug) in n && !n[Doc(slug)].File?)
            && (c.value.reason.DocumentDiffers? ==> Doc(slug) in n && n[Doc(slug)].File?)
  {
    ProtectedIff(n, f, slug);
  }

  lemma ProtectedIff(n: Nodes, f: Formats, slug: string)
    requires ValidSlug(slug)
    ensures Classify(n, f, {}, {}, slug).Some?
    ensures Classify(n, f, {}, {}, slug).value.ProtectedConflict? <==> !Gone(n, slug) && !Owned(n, f, slug)
  {
    var c := Classify(n, f, {}, {}, slug).value;
    if c.ManagedExact? || c.ManagedMissingFile? {
      assert Exact(n, f, slug, c.metadata) || Orphaned(n, f, slug, c.metadata);
    }
  }

  /** A file that cannot be looked at or read is never taken for absent or owned. */
  lemma UnreadableIsNotOwned(n: Nodes, f: Formats, unreadable: set<Path>, locked: set<Path>, slug: string)
    requires Doc(slug) in unreadable || Rec(slug) in unreadable ||
             (Doc(slug) in locked && Doc(slug) in n && n[Doc(slug)].File?)
             || (Rec(slug) in locked && Rec(slug) in n)
    ensures var c := Classify(n, f, unreadable, locked, slug); c.None? || c.value.ProtectedConflict?
  {
  }

  /** The slugs allowed: non-empty, of ASCII lower-case letters, digits, hyphen and underscore. */
  lemma SlugCharacters(slug: string)
    ensures ValidSlug(slug) <==>
              && |slug| > 0
              && forall c :: c in slug ==>
                   97 <= c as int <= 122 || 48 <= c as int <= 57 || c as int == 45 || c as int == 95
  {
    assert "-_"[0] == '-' && "-_"[1] == '_';
    if ValidSlug(slug) {
      forall c | c in slug ensures 97 <= c as int <= 122 || 48 <= c as int <= 57 || c as int == 45 || c as int == 95 {
        var i :| 0 <= i < |slug| && slug[i] == c;
        assert 'a' <= slug[i] <= 'z' || '0' <= slug[i] <= '9' || slug[i] in "-_";
      }
    }
    if |slug| > 0 && forall c :: c in slug ==>
         97 <= c as int <= 122 || 48 <= c as int <= 57 || c as int == 45 || c as int == 95 {
      forall i | 0 <= i < |slug| ensures 'a' <= slug[i] <= 'z' || '0' <= slug[i] <= '9' || slug[i] in "-_" {
        assert slug[i] in slug;
        assert '-' in "-_" && '_' in "-_";
      }
    }
  }

  // ---------------------------------------------------------------- the marketplace

  datatype InstalledAgentRequest = InstalledAgentRequest(slug: string, versionId: Option<string>,
                                                         contentSha256: Option<string>, scope: Option<string>,
                                                         targets: seq<string>, installedVia: Option<string>,
                                                         localSource: bool)

  function InstalledRequest(o: Ownership): seq<InstalledAgentRequest> {
    match o
    case ManagedExact(m) =>
      [InstalledAgentRequest(m.slug, Some(m.versionId), Some(m.contentSha256), Some("global"), [],
                             Some(m.installedVia), false)]
    case _ => []
  }

  datatype Resolution = Resolution(action: string, versionId: string, contentSha256: string,
                                   artifact: Option<Artifact>, source: Source, installedVia: string)

  datatype Marketplace = Marketplace(
    resolve: (string, Option<string>, seq<InstalledAgentRequest>) -> Option<Resolution>,
    download: Resolution -> Option<Bytes>,
    serverUrl: string,
    now: Option<string>)

  /** `Nothing`: an up-to-date document is not downloaded again. */
  datatype Download = Nothing | Fetched(bytes: Bytes) | Refused

  function DownloadIfRequired(o: Ownership, r: Resolution, market: Marketplace): Download {
    if r.action == "noop" && o.ManagedExact? then Nothing
    else if r.artifact.None? then Refused
    else match market.download(r)
         case None => Refused
         case Some(bytes) => Fetched(bytes)
  }

  function MetadataFor(f: Formats, r: Resolution, slug: string, document: Bytes,
                       market: Marketplace): Option<Metadata> {
    if r.artifact.None? || market.now.None? then None
    else Some(Metadata(RECORD_SCHEMA, "agent", slug, r.versionId, r.contentSha256, f.hash(document),
                       r.artifact.value, r.source, market.serverUrl, market.now.value, r.installedVia))
  }

  // ---------------------------------------------------------------- one operation

  datatype Status = Installed | Updated | UpToDate | Removed | AlreadyAbsent | Conflict

  datatype Error = InvalidSlug | Unclassified | NotInstalled | Unresolved | NotDownloaded | NoMetadata
                 | NotReplaced(replacement: Replacement) | NotDeleted(removal: Removal)

  datatype Outcome = Finished(status: Status, metadata: Option<Metadata>) | Errored(error: Error)

  /** What an install or update comes to, going by the files it finds and the answers it
      gets: a verdict, or a pair to write. */
  datatype Intent = Stop(out: Outcome) | Write(document: Bytes, metadata: Metadata, existed: bool)

  function IntentFor(o: Ownership, f: Formats, market: Marketplace, slug: string, versionId: Option<string>): Intent {
    match market.resolve(slug, versionId, InstalledRequest(o))
    case None => Stop(Errored(Unresolved))
    case Some(resolution) =>
      match DownloadIfRequired(o, resolution, market)
      case Refused => Stop(Errored(NotDownloaded))
      case Nothing => Stop(Finished(UpToDate, if o.ManagedExact? then Some(o.metadata) else None))
      case Fetched(document) =>
        match MetadataFor(f, resolution, slug, document, market)
        case None => Stop(Errored(NoMetadata))
        case Some(m) => Write(document, m, o.ManagedExact?)
  }

  function IntentOf(classified: Option<Ownership>, f: Formats, market: Marketplace, slug: string,
                    versionId: Option<string>, updateOnly: bool): Intent {
    if !ValidSlug(slug) then Stop(Errored(InvalidSlug))
    else
      match classified
      case None => Stop(Errored(Unclassified))
      case Some(ProtectedConflict(_)) => Stop(Finished(Conflict, None))
      case Some(o) =>
        if updateOnly && o.Absent? then Stop(Errored(NotInstalled)) else IntentFor(o, f, market, slug, versionId)
  }

  /** Exactly when a pair is written: the files are absent or ours, the marketplace has a
      version with an artifact that it can deliver, and that is not the one installed. */
  lemma WritesExactlyWhen(o: Ownership, f: Formats, market: Marketplace, slug: string, versionId: Option<string>,
                          updateOnly: bool)
    ensures var resolved := market.resolve(slug, versionId, InstalledRequest(o));
            IntentOf(Some(o), f, market, slug, versionId, updateOnly).Write? <==>
              && ValidSlug(slug) && !o.ProtectedConflict? && !(updateOnly && o.Absent?)
              && resolved.Some? && !(resolved.value.action == "noop" && o.ManagedExact?)
              && resolved.value.artifact.Some? && market.download(resolved.value).Some? && market.now.Some?
  {
  }

  /** What comes of an operation that writes nothing. */
  lemma StopsBecause(o: Ownership, f: Formats, market: Marketplace, slug: string, versionId: Option<string>,
                     updateOnly: bool)
    requires ValidSlug(slug) && IntentOf(Some(o), f, market, slug, versionId, updateOnly).Stop?
    ensures var out := IntentOf(Some(o), f, market, slug, versionId, updateOnly).out;
            var resolved := market.resolve(slug, versionId, InstalledRequest(o));
            if o.ProtectedConflict? then out == Finished(Conflict, None)
            else if updateOnly && o.Absent? then out == Errored(NotInstalled)
            else if resolved.None? then out == Errored(Unresolved)
            else if resolved.value.action == "noop" && o.ManagedExact? then out == Finished(UpToDate, Some(o.metadata))
            else if resolved.value.artifact.None? || market.download(resolved.value).None? then
              out == Errored(NotDownloaded)
            else market.now.None? && out == Errored(NoMetadata)
  {
  }

  ghost predicate PairSame(pre: Nodes, post: Nodes, slug: string) {
    Same(pre, post, Doc(slug)) && Same(pre, post, Rec(slug))
  }

  ghost predicate BothKept(pre: Nodes, n: Nodes, slug: string, suffix: nat) {
    Kept(pre, n, slug, AgentFiles.Document, suffix) && Kept(pre, n, slug, AgentFiles.Record, suffix)
  }

  ghost predicate SomeExact(n: Nodes, f: Formats, slug: string) {
    exists m :: Exact(n, f, slug, m)
  }

  /** What an install or update may do to the files, whatever fails in it. */
  ghost predicate InstallStep(f: Formats, pre: Nodes, post: Nodes, slug: string, suffix: nat) {
    && OnlyTouches(pre, post, slug, suffix)
    && (!PairSame(pre, post, slug) ==> Gone(pre, slug) || Owned(pre, f, slug))
    && (SomeExact(post, f, slug) || BothKept(pre, post, slug, suffix))
  }

  ghost predicate RemoveStep(f: Formats, pre: Nodes, post: Nodes, slug: string, suffix: nat) {
    && OnlyTouches(pre, post, slug, suffix)
    && (!PairSame(pre, post, slug) ==> Owned(pre, f, slug))
    && (Gone(post, slug) || BothKept(pre, post, slug, suffix))
  }

  lemma NewPairIsExact(n: Nodes, f: Formats, slug: string, document: Bytes, m: Metadata)
    requires RoundTrips(f) && ForSlug(m, slug) && f.hash(document) == m.installedFileSha256
    requires NewPair(n, slug, document, f.render(m))
    ensures Exact(n, f, slug, m)
  {
    assert f.parse(f.render(m)) == Some(m);
  }

  /** What a new record says, field by field: it is made of the marketplace's resolution, of
      what was downloaded for it, and of nothing else. The marketplace has been told of the
      installed version exactly when the installed document is intact. */
  lemma WrittenRecord(o: Ownership, f: Formats, market: Marketplace, slug: string, versionId: Option<string>)
    requires IntentFor(o, f, market, slug, versionId).Write?
    ensures var told := match o
                        case ManagedExact(old_) =>
                          [InstalledAgentRequest(old_.slug, Some(old_.versionId), Some(old_.contentSha256),
                                                 Some("global"),
                                                 [], Some(old_.installedVia), false)]
                        case _ => [];
            var resolution := market.resolve(slug, versionId, told);
            var intent := IntentFor(o, f, market, slug, versionId);
            var m := intent.metadata;
            && resolution.Some? && market.download(resolution.value) == Some(intent.document)
            && m.schemaVersion == "bb-agent-install/v1" && m.kind == "agent" && m.slug == slug
            && m.versionId == resolution.value.versionId && m.contentSha256 == resolution.value.contentSha256
            && m.installedFileSha256 == f.hash(intent.document)
            && Some(m.artifact) == resolution.value.artifact && m.source == resolution.value.source
            && m.serverUrl == market.serverUrl && Some(m.installedAt) == market.now
            && m.installedVia == resolution.value.installedVia
  {
  }

  lemma IntendedPairFits(o: Ownership, f: Formats, market: Marketplace, slug: string, versionId: Option<string>)
    requires IntentFor(o, f, market, slug, versionId).Write?
    ensures var intent := IntentFor(o, f, market, slug, versionId);
            ForSlug(intent.metadata, slug) && f.hash(intent.document) == intent.metadata.installedFileSha256
  {
  }

  method ResolveAndDownload(o: Ownership, f: Formats, market: Marketplace, slug: string, versionId: Option<string>)
    returns (intent: Intent)
    ensures intent == IntentFor(o, f, market, slug, versionId)
    ensures intent.Stop? && intent.out.Finished? ==>
              o.ManagedExact? && intent.out == Finished(UpToDate, Some(o.metadata))
  {
    var resolution := market.resolve(slug, versionId, InstalledRequest(o));
    if resolution.None? {
      return Stop(Errored(Unresolved));
    }
    match DownloadIfRequired(o, resolution.value, market)
    case Refused => return Stop(Errored(NotDownloaded));
    case Nothing =>
      // The source's `unreachable!` sits in the other case of this match.
      assert o.ManagedExact?;
      return Stop(Finished(UpToDate, Some(o.metadata)));
    case Fetched(document) =>
      var metadata := MetadataFor(f, resolution.value, slug, document, market);
      if metadata.None? {
        return Stop(Errored(NoMetadata));
      }
      return Write(document, metadata.value, o.ManagedExact?);
  }

  /** The files `exists` reports and the files that are there agree, and none is a directory. */
  ghost predicate SeenAsTheyAre(n: Nodes, unreadable: set<Path>, slug: string) {
    && (Visible(n, unreadable, Doc(slug)) <==> Doc(slug) in n) && !IsDirectory(n, Doc(slug))
    && (Visible(n, unreadable, Rec(slug)) <==> Rec(slug) in n) && !IsDirectory(n, Rec(slug))
  }

  function BackupsOf(n: Nodes, slug: string): nat {
    Count(Doc(slug) in n) + Count(Rec(slug) in n)
  }

  /** What is left of a write that fails at the first of its calls from `b` on to fail: before
      the commit, the old pair; from then on what the rollback brings back, and the whole of
      it if it does not fail in turn. */
  ghost predicate FailsCleanly(fails: nat -> bool, b: nat, backups: nat, pre: Nodes, post: Nodes, slug: string) {
    && (!Clear(fails, b, 6) ==> PairSame(pre, post, slug))
    && (Clear(fails, b, 6) ==> RollsBack(fails, b + 6, backups, pre, post, slug))
  }

  ghost predicate RollsBack(fails: nat -> bool, b: nat, backups: nat, pre: Nodes, post: Nodes, slug: string) {
    forall k: nat :: k < backups + 2 && FirstFailure(fails, b, k) ==>
      (Clear(fails, b + k + 1, k) ==> PairSame(pre, post, slug)) && (Clear(fails, b + k + 1, k + 2) ==> pre == post)
  }

  lemma FailureIsClean(c: Change, fails: nat -> bool, b: nat, post: Nodes)
    requires Truthful(c) && AfterFailures(c, fails, b, post)
    ensures RollsBack(fails, b, c.Backups(), c.pre, post, c.slug)
  {
  }

  method WriteIntended(fs: FileSystem, f: Formats, slug: string, suffix: nat, document: Bytes, m: Metadata,
                       existed: bool)
    returns (out: Outcome)
    requires RoundTrips(f) && ForSlug(m, slug) && f.hash(document) == m.installedFileSha256
    requires FreshSuffix(fs.nodes, slug, suffix) && SeenAsTheyAre(fs.nodes, fs.unreadable, slug)
    modifies fs
    ensures |old(fs.trace)| <= |fs.trace| && fs.trace[..|old(fs.trace)|] == old(fs.trace)
    ensures OnlyTouches(old(fs.nodes), fs.nodes, slug, suffix)
    ensures Exact(fs.nodes, f, slug, m) || BothKept(old(fs.nodes), fs.nodes, slug, suffix)
    ensures forall k :: |old(fs.trace)| <= k < |fs.trace| ==>
              SomeExact(fs.trace[k], f, slug) || BothKept(old(fs.nodes), fs.trace[k], slug, suffix)
    ensures out.Finished? <==> Clear(fs.fails, old(fs.calls), 10 + BackupsOf(old(fs.nodes), slug))
    ensures out.Finished? ==> out == Finished(if existed then Updated else Installed, Some(m))
    ensures out.Finished? ==>
              fs.nodes == old(fs.nodes)[Doc(slug) := File(document)][Rec(slug) := File(f.render(m))]
    ensures out.Errored? ==> out.error.NotReplaced?
    ensures FailsCleanly(fs.fails, old(fs.calls), BackupsOf(old(fs.nodes), slug), old(fs.nodes), fs.nodes, slug)
  {
    ghost var n, from, b := fs.nodes, |fs.trace|, fs.calls;
    ghost var c := ChangeOf(n, fs.unreadable, slug, suffix, document, f.render(m));
    assert c.Honest();
    var r := ReplacePair(fs, slug, suffix, document, f.render(m));
    if Clear(fs.fails, b, 6) {
      FailureIsClean(c, fs.fails, b + 6, fs.nodes);
    }
    forall k | from <= k < |fs.trace|
      ensures SomeExact(fs.trace[k], f, slug) || BothKept(n, fs.trace[k], slug, suffix)
    {
      assert c.Safe(fs.trace[k]);
      if NewPair(fs.trace[k], slug, document, f.render(m)) {
        NewPairIsExact(fs.trace[k], f, slug, document, m);
      }
    }
    if NewPair(fs.nodes, slug, document, f.render(m)) {
      NewPairIsExact(fs.nodes, f, slug, document, m);
    }
    if !r.Replaced? {
      return Errored(NotReplaced(r));
    }
    return Finished(if existed then Updated else Installed, Some(m));
  }

  lemma AbsentOrOwnedIsSeen(n: Nodes, f: Formats, unreadable: set<Path>, locked: set<Path>, slug: string)
    requires Classify(n, f, unreadable, locked, slug).Some? &&
              !Classify(n, f, unreadable, locked, slug).value.ProtectedConflict?
    ensures SeenAsTheyAre(n, unreadable, slug) && (Gone(n, slug) || Owned(n, f, slug))
    ensures Classify(n, f, unreadable, locked, slug).value.ManagedExact? <==> SomeExact(n, f, slug)
  {
    ClassifyIsSound(n, f, unreadable, locked, slug);
  }

  /** Everything up to the first change of a file. */
  method Intend(fs: FileSystem, f: Formats, locked: set<Path>, market: Marketplace, slug: string,
                versionId: Option<string>, updateOnly: bool) returns (intent: Intent)
    ensures intent ==
              IntentOf(Classify(fs.nodes, f, fs.unreadable, locked, slug), f, market, slug, versionId, updateOnly)
  {
    if !ValidSlug(slug) {
      return Stop(Errored(InvalidSlug));
    }
    var classified := Classify(fs.nodes, f, fs.unreadable, locked, slug);
    if classified.None? {
      return Stop(Errored(Unclassified));
    }
    var ownership := classified.value;
    if updateOnly && ownership.Absent? {
      return Stop(Errored(NotInstalled));
    }
    if ownership.ProtectedConflict? {
      return Stop(Finished(Conflict, None));
    }
    intent := ResolveAndDownload(ownership, f, market, slug, versionId);
  }

  /** A pair is only ever intended where there is none or an owned one, as `exists` will
      confirm; and an update only where the old pair is exact. */
  lemma IntentIsRight(n: Nodes, f: Formats, unreadable: set<Path>, locked: set<Path>, market: Marketplace, slug: string,
                      versionId: Option<string>, updateOnly: bool)
    ensures match IntentOf(Classify(n, f, unreadable, locked, slug), f, market, slug, versionId, updateOnly)
            case Write(document, m, existed) =>
              && SeenAsTheyAre(n, unreadable, slug) && (Gone(n, slug) || Owned(n, f, slug))
              && (existed <==> SomeExact(n, f, slug)) && !(updateOnly && Gone(n, slug)) && ValidSlug(slug)
              && ForSlug(m, slug) && f.hash(document) == m.installedFileSha256
            case Stop(Finished(status, metadata)) =>
              || (status.Conflict? && metadata.None?)
              || (status.UpToDate? && metadata.Some? && Exact(n, f, slug, metadata.value))
            case Stop(_) => true
  {
    var classified := Classify(n, f, unreadable, locked, slug);
    if classified.Some? && !classified.value.ProtectedConflict? {
      AbsentOrOwnedIsSeen(n, f, unreadable, locked, slug);
      ClassifyIsSound(n, f, unreadable, locked, slug);
      if IntentFor(classified.value, f, market, slug, versionId).Write? {
        IntendedPairFits(classified.value, f, market, slug, versionId);
      }
    }
  }

  /** What was intended, and exactly when it was done. */
  ghost predicate DidAsIntended(intent: Intent, f: Formats, out: Outcome, pre: Nodes, post: Nodes, slug: string,
                                fails: nat -> bool, b: nat) {
    match intent
    case Stop(verdict) => out == verdict && post == pre
    case Write(document, m, existed) =>
      && (out.Finished? <==> Clear(fails, b, 10 + BackupsOf(pre, slug)))
      && (out.Finished? ==> out == Finished(if existed then Updated else Installed, Some(m)))
      && (out.Finished? ==> post == pre[Doc(slug) := File(document)][Rec(slug) := File(f.render(m))])
      && (out.Errored? ==> out.error.NotReplaced?)
      && FailsCleanly(fails, b, BackupsOf(pre, slug), pre, post, slug)
  }

  /** Only an absent or owned pair is ever changed, nothing is lost at any step, the intended
      pair is written exactly when no file-system call fails, and it is one that
      classification calls exact. The branch the source marks unreachable is. */
  method ApplyInstallOrUpdate(fs: FileSystem, f: Formats, locked: set<Path>, market: Marketplace, slug: string,
                              versionId: Option<string>, suffix: nat, updateOnly: bool) returns (out: Outcome)
    requires RoundTrips(f) && FreshSuffix(fs.nodes, slug, suffix)
    modifies fs
    ensures |old(fs.trace)| <= |fs.trace| && fs.trace[..|old(fs.trace)|] == old(fs.trace)
    ensures InstallStep(f, old(fs.nodes), fs.nodes, slug, suffix)
    ensures forall k :: |old(fs.trace)| <= k < |fs.trace| ==>
              SomeExact(fs.trace[k], f, slug) || BothKept(old(fs.nodes), fs.trace[k], slug, suffix)
    ensures DidAsIntended(
              IntentOf(Classify(old(fs.nodes), f, fs.unreadable, locked, slug), f, market, slug, versionId, updateOnly),
              f, out, old(fs.nodes), fs.nodes, slug,
              fs.fails, old(fs.calls))
    ensures out.Finished? && out.status in {Installed, Updated} ==>
              && out.metadata.Some? && Exact(fs.nodes, f, slug, out.metadata.value)
              && (out.status == Updated <==> SomeExact(old(fs.nodes), f, slug))
              && Classify(fs.nodes, f, {}, {}, slug) == Some(ManagedExact(out.metadata.value))
    ensures out.Finished? && out.status == UpToDate ==>
              out.metadata.Some? && Exact(fs.nodes, f, slug, out.metadata.value)
    ensures out.Finished? ==> out.status in {Installed, Updated, UpToDate, Conflict}
    ensures updateOnly && Gone(old(fs.nodes), slug) ==> !out.Finished? || out.status == Conflict
  {
    ghost var n := fs.nodes;
    var intent := Intend(fs, f, locked, market, slug, versionId, updateOnly);
    IntentIsRight(n, f, fs.unreadable, locked, market, slug, versionId, updateOnly);
    match intent
    case Stop(verdict) => return verdict;
    case Write(document, m, existed) =>
      out := WriteIntended(fs, f, slug, suffix, document, m, existed);
      if out.Finished? {
        NewPairIsExact(fs.nodes, f, slug, document, m);
        ClassifyIsExact(fs.nodes, f, slug, m);
      }
  }

  /** Only an owned pair is removed, and exactly when no call fails; until both files are set aside both survive; and a
      success leaves nothing to classify. */
  method Remove(fs: FileSystem, f: Formats, locked: set<Path>, slug: string, suffix: nat) returns (out: Outcome)
    requires FreshSuffix(fs.nodes, slug, suffix)
    modifies fs
    ensures |old(fs.trace)| <= |fs.trace| && fs.trace[..|old(fs.trace)|] == old(fs.trace)
    ensures RemoveStep(f, old(fs.nodes), fs.nodes, slug, suffix)
    ensures match Classify(old(fs.nodes), f, fs.unreadable, locked, slug)
            case Some(ManagedExact(m)) =>
              && (out == Finished(Removed, Some(m)) <==> Clear(fs.fails, old(fs.calls), 4))
              && (Clear(fs.fails, old(fs.calls), 2) ==> Gone(fs.nodes, slug))
              && (!Clear(fs.fails, old(fs.calls), 2) && !DocumentIsStuck(fs.fails, old(fs.calls), true) ==>
                    fs.nodes == old(fs.nodes))
            case Some(ManagedMissingFile(m)) =>
              && (out == Finished(Removed, Some(m)) <==> Clear(fs.fails, old(fs.calls), 2))
              && (Clear(fs.fails, old(fs.calls), 1) ==> Gone(fs.nodes, slug))
              && (!Clear(fs.fails, old(fs.calls), 1) ==> fs.nodes == old(fs.nodes))
            case Some(Absent) => out == Finished(AlreadyAbsent, None)
            case Some(ProtectedConflict(_)) => out == Finished(Conflict, None)
            case None => out.Errored?
    ensures forall k :: |old(fs.trace)| <= k < |fs.trace| ==>
              Gone(fs.trace[k], slug) || BothKept(old(fs.nodes), fs.trace[k], slug, suffix)
    ensures out.Finished? && out.status == Removed ==>
              && out.metadata.Some? && fs.nodes == old(fs.nodes) - {Doc(slug), Rec(slug)}
              && (Exact(old(fs.nodes), f, slug, out.metadata.value) ||
                  Orphaned(old(fs.nodes), f, slug, out.metadata.value))
              && Classify(fs.nodes, f, {}, {}, slug) == Some(Absent)
    ensures !(out.Finished? && out.status == Removed) && !(out.Errored? && out.error.NotDeleted?) ==>
              fs.nodes == old(fs.nodes)
    ensures out.Finished? && out.status == AlreadyAbsent ==> Gone(fs.nodes, slug)
    ensures out.Finished? ==> out.status in {Removed, AlreadyAbsent, Conflict}
  {
    if !ValidSlug(slug) {
      return Errored(InvalidSlug);
    }
    ghost var n := fs.nodes;
    var classified := Classify(fs.nodes, f, fs.unreadable, locked, slug);
    match classified
    case None => return Errored(Unclassified);
    case Some(ProtectedConflict(_)) => return Finished(Conflict, None);
    case Some(Absent) => return Finished(AlreadyAbsent, None);
    case Some(ownership) =>
      ClassifyIsSound(n, f, fs.unreadable, locked, slug);
      var hasTarget := ownership.ManagedExact?;
      var r := RemovePair(fs, slug, suffix, hasTarget);
      ghost var c := RemovalOf(n, slug, suffix, hasTarget);
      assert forall u: Nodes :: c.KeptAll(u) ==> BothKept(n, u, slug, suffix);
      if !r.Cleared? {
        return Errored(NotDeleted(r));
      }
      return Finished(Removed, Some(ownership.metadata));
  }

  // ---------------------------------------------------------------- whole runs

  /** A user edit may do anything to the canonical files of a slug, between operations. */
  datatype Event = Install(slug: string, suffix: nat) | Delete(slug: string, suffix: nat) | Edit(slug: string)

  ghost predicate Step(f: Formats, pre: Nodes, e: Event, post: Nodes) {
    match e
    case Install(slug, suffix) => FreshSuffix(pre, slug, suffix) && InstallStep(f, pre, post, slug, suffix)
    case Delete(slug, suffix) => FreshSuffix(pre, slug, suffix) && RemoveStep(f, pre, post, slug, suffix)
    case Edit(slug) => forall p :: p != Doc(slug) && p != Rec(slug) ==> Same(pre, post, p)
  }

  ghost predicate Run(f: Formats, states: seq<Nodes>, events: seq<Event>) {
    |states| == |events| + 1 && forall i :: 0 <= i < |events| ==> Step(f, states[i], events[i], states[i + 1])
  }

  ghost predicate Unedited(events: seq<Event>, slug: string) {
    Edit(slug) !in events
  }

  lemma RunPrefix(f: Formats, states: seq<Nodes>, events: seq<Event>)
    requires Run(f, states, events) && events != []
    ensures Run(f, states[..|events|], events[..|events| - 1])
  {
  }

  /** However many operations run and whatever fails in them, a pair whose record does not
      prove ownership stays exactly as the user left it. */
  lemma {:induction false} ProtectedPairIsNeverTouched(f: Formats, states: seq<Nodes>, events: seq<Event>, slug: string)
    requires Run(f, states, events) && Unedited(events, slug)
    requires !Gone(states[0], slug) && !Owned(states[0], f, slug)
    ensures PairSame(states[0], states[|events|], slug)
    decreases |events|
  {
    if events != [] {
      var k := |events| - 1;
      RunPrefix(f, states, events);
      ProtectedPairIsNeverTouched(f, states[..k + 1], events[..k], slug);
      var pre, post := states[k], states[k + 1];
      assert Step(f, pre, events[k], post) && events[k] != Edit(slug);
      OwnedIsLocal(f, states[0], pre, slug);
      if events[k].slug != slug {
        assert Same(pre, post, Doc(slug)) && Same(pre, post, Rec(slug));
      }
    }
  }

  lemma OwnedIsLocal(f: Formats, a: Nodes, b: Nodes, slug: string)
    requires PairSame(a, b, slug)
    ensures Owned(a, f, slug) <==> Owned(b, f, slug)
    ensures Gone(a, slug) <==> Gone(b, slug)
  {
    forall m: Metadata
      ensures Exact(a, f, slug, m) == Exact(b, f, slug, m) && Orphaned(a, f, slug, m) == Orphaned(b, f, slug, m)
    {
    }
  }

  /** At its canonical path or at some backup. */
  ghost predicate Survives(n: Nodes, slug: string, role: Role, node: Node) {
    Holds(n, Path(slug, role, Canonical), node) || exists k :: Holds(n, Path(slug, role, Backup(k)), node)
  }

  /** The step changed the pair and finished: an exact new pair, or nothing at all. */
  ghost predicate Completes(f: Formats, pre: Nodes, e: Event, post: Nodes, slug: string) {
    && e.slug == slug && !e.Edit? && !PairSame(pre, post, slug)
    && (if e.Install? then SomeExact(post, f, slug) else Gone(post, slug))
  }

  lemma StepKeepsSurvivor(f: Formats, pre: Nodes, e: Event, post: Nodes, slug: string, role: Role, node: Node)
    requires Step(f, pre, e, post) && e != Edit(slug)
    requires Survives(pre, slug, role, node)
    ensures Completes(f, pre, e, post, slug) || Survives(post, slug, role, node)
  {
    var p := Path(slug, role, Canonical);
    if k :| Holds(pre, Path(slug, role, Backup(k)), node) {
      var b := Path(slug, role, Backup(k));
      if e.slug == slug {
        assert k != e.suffix;
      }
      assert Same(pre, post, b);
    } else if e.slug != slug {
      assert Same(pre, post, p);
    } else if !Completes(f, pre, e, post, slug) {
      assert role == AgentFiles.Document || role == AgentFiles.Record;
      if PairSame(pre, post, slug) {
        assert p == Doc(slug) || p == Rec(slug);
      } else {
        assert Kept(pre, post, slug, role, e.suffix);
      }
    }
  }

  /** Through any number of operations and faults, what stood at a canonical path is still
      on disk, byte for byte, until an operation on that slug completes. */
  lemma {:induction false} NothingIsLostUntilAnOperationCompletes(f: Formats, states: seq<Nodes>, events: seq<Event>,
                                                                  slug: string, role: Role, node: Node)
    requires Run(f, states, events) && Unedited(events, slug)
    requires Holds(states[0], Path(slug, role, Canonical), node)
    ensures Survives(states[|events|], slug, role, node) ||
            exists i :: 0 <= i < |events| && Completes(f, states[i], events[i], states[i + 1], slug)
    decreases |events|
  {
    if events != [] {
      var k := |events| - 1;
      RunPrefix(f, states, events);
      NothingIsLostUntilAnOperationCompletes(f, states[..k + 1], events[..k], slug, role, node);
      if Survives(states[k], slug, role, node) {
        assert Step(f, states[k], events[k], states[k + 1]) && events[k] != Edit(slug);
        StepKeepsSurvivor(f, states[k], events[k], states[k + 1], slug, role, node);
      } else {
        var i :| 0 <= i < k && Completes(f, states[..k + 1][i], events[..k][i], states[..k + 1][i + 1], slug);
        assert Completes(f, states[i], events[i], states[i + 1], slug);
      }
    }
  }
}
