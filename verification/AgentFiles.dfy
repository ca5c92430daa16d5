/** The two-file commit behind managed agents: a document and its ownership record are
    replaced or removed by stage, backup and rename, with a rollback that can itself
    fail. Any call may fail; a failed call leaves the files as they were, except that a
    failed write may leave a torn stage file behind. */
module AgentFiles {
  import opened Wrappers

  newtype byte = i: int | 0 <= i < 256
  type Bytes = seq<byte>

  datatype Node = File(bytes: Bytes) | Directory | Link(dangling: bool)
  datatype Role = Document | Record
  datatype Place = Canonical | Stage(suffix: nat) | Backup(suffix: nat)
  datatype Path = Path(slug: string, role: Role, place: Place)
  type Nodes = map<Path, Node>

  function Doc(slug: string): Path { Path(slug, Document, Canonical) }
  function Rec(slug: string): Path { Path(slug, Record, Canonical) }

  function Moved(n: Nodes, from: Path, to: Path): Nodes
    requires from in n
  {
    (n - {from})[to := n[from]]
  }

  /** `exists` follows links and reads an error as absence. */
  predicate Visible(n: Nodes, unreadable: set<Path>, p: Path) {
    p in n && n[p] != Link(true) && p !in unreadable
  }

  datatype IoResult = Done | Missing | Failed

  /** None of the `n` calls from number `from` on fails. */
  predicate Clear(fails: nat -> bool, from: nat, n: nat) {
    forall k :: from <= k < from + n ==> !fails(k)
  }

  class FileSystem {
    var nodes: Nodes
    var calls: nat
    /** Whether a call fails, by its number, and how much of a failed write lands. */
    const fails: nat -> bool
    const torn: nat -> nat
    /** The paths whose metadata cannot be read. */
    const unreadable: set<Path>
    /** The files after every call so far. */
    ghost var trace: seq<Nodes>

    constructor (nodes: Nodes, fails: nat -> bool, torn: nat -> nat, unreadable: set<Path>)
      ensures this.nodes == nodes && trace == [] && calls == 0
      ensures this.fails == fails && this.torn == torn && this.unreadable == unreadable
    {
      this.nodes, this.fails, this.torn, this.unreadable := nodes, fails, torn, unreadable;
      calls, trace := 0, [];
    }

    predicate Exists(p: Path)
      reads this`nodes
    {
      Visible(nodes, unreadable, p)
    }

    method Rename(from: Path, to: Path) returns (ok: bool)
      modifies this
      ensures ok <==> from in old(nodes) && !fails(old(calls)) &&
                      (to in old(nodes) ==> old(nodes[from].Directory? == nodes[to].Directory?))
      ensures nodes == if ok then Moved(old(nodes), from, to) else old(nodes)
      ensures trace == old(trace) + [nodes] && calls == old(calls) + 1
    {
      ok := from in nodes && !fails(calls) && (to in nodes ==> nodes[from].Directory? == nodes[to].Directory?);
      if ok {
        nodes := Moved(nodes, from, to);
      }
      calls, trace := calls + 1, trace + [nodes];
    }

    method RemoveFile(p: Path) returns (r: IoResult)
      modifies this
      ensures r == if fails(old(calls)) then Failed
                   else if p !in old(nodes) then Missing
                   else if old(nodes)[p].Directory? then Failed else Done
      ensures nodes == if r.Done? then old(nodes) - {p} else old(nodes)
      ensures trace == old(trace) + [nodes] && calls == old(calls) + 1
    {
      r := if fails(calls) then Failed else if p !in nodes then Missing
           else if nodes[p].Directory? then Failed else Done;
      if r.Done? {
        nodes := nodes - {p};
      }
      calls, trace := calls + 1, trace + [nodes];
    }

    method CreateDirs() returns (ok: bool)
      modifies this`calls
      ensures ok <==> !fails(old(calls))
      ensures calls == old(calls) + 1
    {
      ok := !fails(calls);
      calls := calls + 1;
    }

    /** Never overwrites. Two calls: opening, then writing and syncing. */
    method WriteNewFile(p: Path, bytes: Bytes) returns (ok: bool)
      modifies this
      ensures ok <==> p !in old(nodes) && !fails(old(calls)) && !fails(old(calls) + 1)
      ensures ok ==> nodes == old(nodes)[p := File(bytes)] && calls == old(calls) + 2
      ensures !ok && p in old(nodes) ==> nodes == old(nodes)
      ensures !ok ==> nodes - {p} == old(nodes) - {p}
      ensures |trace| >= |old(trace)| && trace[..|old(trace)|] == old(trace)
      ensures forall k :: |old(trace)| <= k < |trace| ==>
                trace[k] - {p} == old(nodes) - {p} && (p in old(nodes) ==> trace[k] == old(nodes))
    {
      if fails(calls) || p in nodes {
        calls := calls + 1;
        return false;
      }
      calls := calls + 1;
      nodes := nodes[p := File([])];
      trace := trace + [nodes];
      if fails(calls) {
        nodes := nodes[p := File(bytes[..if torn(calls) < |bytes| then torn(calls) else |bytes|])];
        ok := false;
      } else {
        nodes := nodes[p := File(bytes)];
        ok := true;
      }
      calls, trace := calls + 1, trace + [nodes];
    }
  }

  // ---------------------------------------------------------------- what survives

  ghost predicate Holds(n: Nodes, p: Path, node: Node) {
    p in n && n[p] == node
  }

  /** What stood at the canonical path stands there or at this operation's backup path. */
  ghost predicate Kept(pre: Nodes, n: Nodes, slug: string, role: Role, suffix: nat) {
    var p := Path(slug, role, Canonical);
    p in pre ==> Holds(n, p, pre[p]) || Holds(n, Path(slug, role, Backup(suffix)), pre[p])
  }

  ghost predicate NewPair(n: Nodes, slug: string, document: Bytes, record: Bytes) {
    Holds(n, Doc(slug), File(document)) && Holds(n, Rec(slug), File(record))
  }

  /** A new document beside the old record. */
  ghost predicate Mixed(pre: Nodes, n: Nodes, slug: string, document: Bytes) {
    && Holds(n, Doc(slug), File(document))
    && Rec(slug) in pre && Holds(n, Rec(slug), pre[Rec(slug)])
  }

  predicate Same(pre: Nodes, n: Nodes, p: Path) {
    (p in pre <==> p in n) && (p in pre ==> n[p] == pre[p])
  }

  ghost predicate AgreesExcept(a: Nodes, b: Nodes, gone: set<Path>) {
    forall p :: p !in gone ==> Same(a, b, p)
  }

  predicate IsDirectory(n: Nodes, p: Path) {
    p in n && n[p].Directory?
  }

  /** The paths an operation on `slug` with this suffix may touch. */
  predicate InScope(p: Path, slug: string, suffix: nat) {
    p.slug == slug && (p.place.Canonical? || p.place == Stage(suffix) || p.place == Backup(suffix))
  }

  ghost predicate OnlyTouches(pre: Nodes, n: Nodes, slug: string, suffix: nat) {
    forall p :: !InScope(p, slug, suffix) ==> Same(pre, n, p)
  }

  /** The clock-derived suffix is new: no stage or backup carries it yet. */
  ghost predicate FreshSuffix(n: Nodes, slug: string, suffix: nat) {
    forall role :: Path(slug, role, Stage(suffix)) !in n && Path(slug, role, Backup(suffix)) !in n
  }

  /** One replacement: the files it found, what it installs, and what `exists` told it. */
  datatype Change = Change(pre: Nodes, slug: string, suffix: nat, document: Bytes, record: Bytes,
                           targetExisted: bool, stateExisted: bool)
  {
    function DocBackup(): Path { Path(slug, Document, Backup(suffix)) }
    function RecBackup(): Path { Path(slug, Record, Backup(suffix)) }
    function DocStage(): Path { Path(slug, Document, Stage(suffix)) }
    function RecStage(): Path { Path(slug, Record, Stage(suffix)) }

    /** `exists` never invents a file. */
    ghost predicate Sound() {
      (targetExisted ==> Doc(slug) in pre) && (stateExisted ==> Rec(slug) in pre)
    }

    /** `exists` overlooked nothing. */
    ghost predicate Honest() {
      (targetExisted <==> Doc(slug) in pre) && (stateExisted <==> Rec(slug) in pre)
    }

    ghost predicate Differs() {
      !Holds(pre, Doc(slug), File(document)) && !Holds(pre, Rec(slug), File(record))
    }

    ghost predicate KeptAll(n: Nodes) {
      && (targetExisted ==> Kept(pre, n, slug, Document, suffix))
      && (stateExisted ==> Kept(pre, n, slug, Record, suffix))
    }

    /** Nothing is lost: the new pair is complete, or the old files survive. */
    ghost predicate Safe(n: Nodes) {
      NewPair(n, slug, document, record) || KeptAll(n)
    }

    ghost predicate SafeSince(trace: seq<Nodes>, from: nat) {
      forall k :: from <= k < |trace| ==> Safe(trace[k])
    }

    ghost predicate MixedSince(trace: seq<Nodes>, from: nat) {
      exists k :: from <= k < |trace| && IsMixed(trace[k])
    }

    ghost predicate IsMixed(n: Nodes) {
      Mixed(pre, n, slug, document)
    }

    lemma Grow(trace: seq<Nodes>, n: Nodes, from: nat)
      requires from <= |trace|
      ensures SafeSince(trace + [n], from) <==> SafeSince(trace, from) && Safe(n)
      ensures MixedSince(trace + [n], from) <==> MixedSince(trace, from) || IsMixed(n)
    {
      var all := trace + [n];
      assert all[|trace|] == n;
      assert forall k :: from <= k < |trace| ==> all[k] == trace[k];
    }

    lemma GrowBy(trace: seq<Nodes>, all: seq<Nodes>, from: nat)
      requires from <= |trace| <= |all| && all[..|trace|] == trace
      ensures SafeSince(all, from) <==> SafeSince(trace, from) && SafeSince(all, |trace|)
      ensures MixedSince(all, from) <==> MixedSince(trace, from) || MixedSince(all, |trace|)
    {
      assert forall k :: from <= k < |trace| ==> all[k] == trace[k];
    }

    /** The old file is at its backup path. */
    ghost predicate AtBackup(n: Nodes, role: Role) {
      Path(slug, role, Canonical) in pre && Holds(n, Path(slug, role, Backup(suffix)), pre[Path(slug, role, Canonical)])
    }

    /** The canonical path is as before, and nothing is at the backup path. */
    ghost predicate InPlace(n: Nodes, role: Role) {
      Same(pre, n, Path(slug, role, Canonical)) && Path(slug, role, Backup(suffix)) !in n
    }

    /** How many files have to be backed up. */
    function Backups(): nat {
      Count(targetExisted) + Count(stateExisted)
    }

    ghost predicate PairAsBefore(n: Nodes) {
      Same(pre, n, Doc(slug)) && Same(pre, n, Rec(slug))
    }
  }

  // ---------------------------------------------------------------- rollback and clean-up

  /** The rollback steps that failed. */
  datatype Failures = Failures(removal: bool, record: bool, document: bool)
  {
    predicate None() { !removal && !record && !document }
  }

  /** The files a rollback starts from: the backups are in place, and the new document
      may have gone in. `stateMoved` says whether the record had reached its backup. */
  ghost predicate Rollback(c: Change, n: Nodes, stateMoved: bool, replaced: bool) {
    && c.Sound()
    && (stateMoved ==> c.stateExisted && Holds(n, c.RecBackup(), c.pre[Rec(c.slug)]) && Rec(c.slug) !in n)
    && (c.targetExisted ==> Holds(n, c.DocBackup(), c.pre[Doc(c.slug)]))
    && (c.stateExisted && !stateMoved ==> Holds(n, Rec(c.slug), c.pre[Rec(c.slug)]))
    && (if replaced then Holds(n, Doc(c.slug), File(c.document)) else Doc(c.slug) in n ==> !c.targetExisted)
  }

  /** The files after a rollback that had the failures `f`, step by step. */
  ghost function Unreplaced(c: Change, n: Nodes, replaced: bool, f: Failures): Nodes {
    if replaced && !f.removal then n - {Doc(c.slug)} else n
  }

  ghost function RecordBack(c: Change, n: Nodes, stateMoved: bool, f: Failures): Nodes {
    if stateMoved && !f.record && c.RecBackup() in n then Moved(n, c.RecBackup(), Rec(c.slug)) else n
  }

  ghost function DocumentBack(c: Change, n: Nodes, f: Failures): Nodes {
    if c.targetExisted && !f.document && c.DocBackup() in n then Moved(n, c.DocBackup(), Doc(c.slug)) else n
  }

  ghost function Restored(c: Change, n: Nodes, stateMoved: bool, replaced: bool, f: Failures): Nodes {
    DocumentBack(c, RecordBack(c, Unreplaced(c, n, replaced, f), stateMoved, f), f)
  }

  function Count(happens: bool): nat {
    if happens then 1 else 0
  }

  /** What a rollback whose calls are numbered from `u` leaves: every step that does not fail
      brings its file back, every other leaves it at its backup path. */
  ghost predicate AfterUndo(c: Change, fails: nat -> bool, u: nat, stateMoved: bool, replaced: bool, n: Nodes) {
    && (if stateMoved && fails(u + Count(replaced)) then c.AtBackup(n, Record) else c.InPlace(n, Record))
    && (c.targetExisted ==>
          if fails(u + Count(replaced) + Count(stateMoved)) then c.AtBackup(n, Document) else c.InPlace(n, Document))
    && (!c.targetExisted ==> c.DocBackup() !in n && (Doc(c.slug) in n ==> replaced && fails(u)))
  }

  /** A rollback that starts from what `exists` reported truthfully. */
  ghost predicate Orderly(c: Change, n: Nodes, stateMoved: bool, replaced: bool) {
    && c.Honest() && !IsDirectory(c.pre, Doc(c.slug))
    && (!stateMoved ==> c.InPlace(n, Record))
    && (!c.targetExisted ==> c.DocBackup() !in n && (Doc(c.slug) in n ==> replaced))
  }

  /** Tries every step and collects the failures. */
  method RestorePair(fs: FileSystem, ghost c: Change, slug: string, suffix: nat, targetExisted: bool, stateMoved: bool,
                     replaced: bool)
    returns (f: Failures)
    requires Rollback(c, fs.nodes, stateMoved, replaced)
    requires c.slug == slug && c.suffix == suffix && c.targetExisted == targetExisted
    modifies fs
    ensures fs.nodes == Restored(c, old(fs.nodes), stateMoved, replaced, f)
    ensures fs.trace == old(fs.trace) + Steps(c, old(fs.nodes), stateMoved, replaced, f)
    ensures f.removal <==> replaced && fs.fails(old(fs.calls))
    ensures f.record <==> stateMoved && fs.fails(old(fs.calls) + Count(replaced))
    ensures !replaced || !IsDirectory(c.pre, Doc(slug)) ==>
              (f.document <==> targetExisted && fs.fails(old(fs.calls) + Count(replaced) + Count(stateMoved)))
    ensures fs.calls == old(fs.calls) + Count(replaced) + Count(stateMoved) + Count(targetExisted)
  {
    f := Failures(false, false, false);
    if replaced {
      var r := fs.RemoveFile(Doc(slug));
      f := f.(removal := !r.Done?);
    }
    if stateMoved {
      var ok := fs.Rename(Path(slug, Record, Backup(suffix)), Rec(slug));
      f := f.(record := !ok);
    }
    if targetExisted {
      var ok := fs.Rename(Path(slug, Document, Backup(suffix)), Doc(slug));
      f := f.(document := !ok);
    }
  }

  /** Every step of a rollback keeps what was there; one without failures brings it all
      back; and a new document meets the old record exactly when its removal failed
      while the record's return did not. */
  lemma RollbackKeeps(c: Change, n: Nodes, stateMoved: bool, replaced: bool, f: Failures)
    requires Rollback(c, n, stateMoved, replaced)
    ensures c.KeptAll(Unreplaced(c, n, replaced, f))
    ensures c.KeptAll(RecordBack(c, Unreplaced(c, n, replaced, f), stateMoved, f))
    ensures c.KeptAll(Restored(c, n, stateMoved, replaced, f))
  {
    var a := Unreplaced(c, n, replaced, f);
    var b := RecordBack(c, a, stateMoved, f);
    assert c.KeptAll(a);
    assert c.KeptAll(b);
  }

  lemma RollbackBringsBack(c: Change, n: Nodes, stateMoved: bool, replaced: bool, f: Failures)
    requires Rollback(c, n, stateMoved, replaced) && f.None()
    ensures var u := Restored(c, n, stateMoved, replaced, f);
            && (if c.targetExisted then Same(c.pre, u, Doc(c.slug)) && c.DocBackup() !in u
                else if replaced then Doc(c.slug) !in u else Same(n, u, Doc(c.slug)))
            && (if stateMoved then Same(c.pre, u, Rec(c.slug)) && c.RecBackup() !in u
                else Same(n, u, Rec(c.slug)))
  {
    var a := Unreplaced(c, n, replaced, f);
    var b := RecordBack(c, a, stateMoved, f);
    assert c.targetExisted ==> c.DocBackup() in b && b[c.DocBackup()] == c.pre[Doc(c.slug)];
  }

  lemma RollbackUndoes(c: Change, n: Nodes, fails: nat -> bool, u: nat, stateMoved: bool, replaced: bool, f: Failures)
    requires Rollback(c, n, stateMoved, replaced) && Orderly(c, n, stateMoved, replaced)
    requires (f.removal <==> replaced && fails(u)) && (f.record <==> stateMoved && fails(u + Count(replaced)))
    requires f.document <==> c.targetExisted && fails(u + Count(replaced) + Count(stateMoved))
    ensures AfterUndo(c, fails, u, stateMoved, replaced, Restored(c, n, stateMoved, replaced, f))
  {
    var a := Unreplaced(c, n, replaced, f);
    var b := RecordBack(c, a, stateMoved, f);
    assert c.targetExisted ==> Holds(b, c.DocBackup(), c.pre[Doc(c.slug)]);
    assert stateMoved ==> Holds(a, c.RecBackup(), c.pre[Rec(c.slug)]);
  }

  lemma RollbackTouches(c: Change, n: Nodes, stateMoved: bool, replaced: bool, f: Failures)
    requires Rollback(c, n, stateMoved, replaced)
    ensures var u := Restored(c, n, stateMoved, replaced, f);
            && AgreesExcept(n, u, {Doc(c.slug), Rec(c.slug), c.DocBackup(), c.RecBackup()})
            && OnlyTouches(n, u, c.slug, c.suffix)
            && (!c.targetExisted ==> Same(n, u, c.DocBackup())) && (!stateMoved ==> Same(n, u, c.RecBackup()))
  {
    var u := Restored(c, n, stateMoved, replaced, f);
    assert AgreesExcept(n, u, {Doc(c.slug), Rec(c.slug), c.DocBackup(), c.RecBackup()});
    forall p | !InScope(p, c.slug, c.suffix)
      ensures Same(n, u, p)
    {
      assert p !in {Doc(c.slug), Rec(c.slug), c.DocBackup(), c.RecBackup()};
    }
  }

  predicate Meets(stateMoved: bool, replaced: bool, f: Failures) {
    replaced && stateMoved && f.removal && !f.record
  }

  lemma RollbackMixes(c: Change, n: Nodes, stateMoved: bool, replaced: bool, f: Failures)
    requires Rollback(c, n, stateMoved, replaced) && c.Differs()
    requires c.stateExisted && !stateMoved ==> !replaced
    requires !replaced ==> !Holds(n, Doc(c.slug), File(c.document))
    ensures !c.IsMixed(Unreplaced(c, n, replaced, f)) || !c.stateExisted
    ensures c.stateExisted ==>
              (c.IsMixed(RecordBack(c, Unreplaced(c, n, replaced, f), stateMoved, f)) <==>
                  Meets(stateMoved, replaced, f))
    ensures c.stateExisted && c.IsMixed(Restored(c, n, stateMoved, replaced, f)) ==> Meets(stateMoved, replaced, f)
  {
    var a := Unreplaced(c, n, replaced, f);
    var b := RecordBack(c, a, stateMoved, f);
    assert Holds(a, Doc(c.slug), File(c.document)) <==> replaced && f.removal;
    assert Holds(b, Doc(c.slug), File(c.document)) <==> replaced && f.removal;
  }

  /** What a rollback owes, whatever fails in it. */
  method Recover(fs: FileSystem, ghost c: Change, slug: string, suffix: nat, targetExisted: bool, stateMoved: bool,
                 replaced: bool)
    returns (f: Failures)
    requires Rollback(c, fs.nodes, stateMoved, replaced) && (c.stateExisted && !stateMoved ==> !replaced)
    requires c.slug == slug && c.suffix == suffix && c.targetExisted == targetExisted
    modifies fs
    ensures |old(fs.trace)| <= |fs.trace| && fs.trace[..|old(fs.trace)|] == old(fs.trace)
    ensures c.SafeSince(fs.trace, |old(fs.trace)|) && c.Safe(fs.nodes)
    ensures f.None() && c.Honest() && (c.stateExisted && !stateMoved ==> Same(c.pre, old(fs.nodes), Rec(slug))) &&
            (!c.targetExisted && !replaced ==> Doc(slug) !in old(fs.nodes)) &&
                (!c.stateExisted ==> Rec(slug) !in old(fs.nodes)) ==>
              c.PairAsBefore(fs.nodes) && (c.targetExisted ==> c.DocBackup() !in fs.nodes) &&
                  (stateMoved ==> c.RecBackup() !in fs.nodes)
    ensures OnlyTouches(old(fs.nodes), fs.nodes, slug, suffix)
    ensures StagesAreFiles(c, old(fs.nodes)) ==> StagesAreFiles(c, fs.nodes)
    ensures !c.targetExisted ==> Same(old(fs.nodes), fs.nodes, c.DocBackup())
    ensures !stateMoved ==> Same(old(fs.nodes), fs.nodes, c.RecBackup())
    ensures f.removal <==> replaced && fs.fails(old(fs.calls))
    ensures f.record <==> stateMoved && fs.fails(old(fs.calls) + Count(replaced))
    ensures !IsDirectory(c.pre, Doc(slug)) ==>
              (f.document <==> targetExisted && fs.fails(old(fs.calls) + Count(replaced) + Count(stateMoved)))
    ensures fs.calls == old(fs.calls) + Count(replaced) + Count(stateMoved) + Count(targetExisted)
    ensures Orderly(c, old(fs.nodes), stateMoved, replaced) ==>
              AfterUndo(c, fs.fails, old(fs.calls), stateMoved, replaced, fs.nodes)
    ensures c.Differs() && c.Honest() && (!replaced ==> !Holds(old(fs.nodes), Doc(c.slug), File(c.document))) ==>
              (c.MixedSince(fs.trace, |old(fs.trace)|) <==> Meets(stateMoved, replaced, f)) &&
              (c.IsMixed(fs.nodes) ==> Meets(stateMoved, replaced, f))
  {
    ghost var n, t := fs.nodes, fs.trace;
    f := RestorePair(fs, c, slug, suffix, targetExisted, stateMoved, replaced);
    RollbackTouches(c, n, stateMoved, replaced, f);
    RollbackTrace(c, n, t, stateMoved, replaced, f);
    assert Same(n, fs.nodes, c.DocStage()) && Same(n, fs.nodes, c.RecStage());
    if f.None() {
      RollbackBringsBack(c, n, stateMoved, replaced, f);
    }
    if Orderly(c, n, stateMoved, replaced) {
      RollbackUndoes(c, n, fs.fails, old(fs.calls), stateMoved, replaced, f);
    }
  }

  /** The files after each step of a rollback, and its last. */
  ghost function Steps(c: Change, n: Nodes, stateMoved: bool, replaced: bool, f: Failures): seq<Nodes> {
    var a := Unreplaced(c, n, replaced, f);
    (if replaced then [a] else []) + (if stateMoved then [RecordBack(c, a, stateMoved, f)] else []) +
    (if c.targetExisted then [Restored(c, n, stateMoved, replaced, f)] else [])
  }

  lemma RollbackTrace(c: Change, n: Nodes, t: seq<Nodes>, stateMoved: bool, replaced: bool, f: Failures)
    requires Rollback(c, n, stateMoved, replaced) && (c.stateExisted && !stateMoved ==> !replaced)
    ensures var all := t + Steps(c, n, stateMoved, replaced, f);
            && all[..|t|] == t && c.SafeSince(all, |t|) && c.Safe(Restored(c, n, stateMoved, replaced, f))
            && (c.Differs() && c.Honest() && (!replaced ==> !Holds(n, Doc(c.slug), File(c.document))) ==>
                  (c.MixedSince(all, |t|) <==> Meets(stateMoved, replaced, f)) &&
                  (c.IsMixed(Restored(c, n, stateMoved, replaced, f)) ==> Meets(stateMoved, replaced, f)))
  {
    var a := Unreplaced(c, n, replaced, f);
    var b := RecordBack(c, a, stateMoved, f);
    var u := Restored(c, n, stateMoved, replaced, f);
    var all := t + Steps(c, n, stateMoved, replaced, f);
    RollbackKeeps(c, n, stateMoved, replaced, f);
    assert forall k :: |t| <= k < |all| ==> all[k] == a || all[k] == b || all[k] == u;
    if c.Differs() && c.Honest() && (!replaced ==> !Holds(n, Doc(c.slug), File(c.document))) {
      RollbackMixes(c, n, stateMoved, replaced, f);
      if Meets(stateMoved, replaced, f) {
        assert all[|t| + 1] == b;
      }
    }
  }

  // ---------------------------------------------------------------- replacing the pair

  datatype Phase = BackupDocument | BackupRecord | InstallDocument | InstallRecord

  datatype Outcome = Committed | Halted(at: Phase, f: Failures)
  {
    /** Exactly then a new document stood beside the old record for a moment. */
    predicate Met(stateExisted: bool) {
      Halted? && at.InstallRecord? && Meets(stateExisted, true, f)
    }
  }

  /** Of the calls from number `b` on, number `b + k` is the first that fails. */
  predicate FirstFailure(fails: nat -> bool, b: nat, k: nat) {
    Clear(fails, b, k) && fails(b + k)
  }

  /** `exists` told the truth, and the document is no directory. */
  ghost predicate Truthful(c: Change) {
    c.Honest() && !IsDirectory(c.pre, Doc(c.slug))
  }

  /** What is left when the commit's call number `k` is the first to fail and the rollback's
      calls are numbered from `u`. There are as many of those as calls to undo: `k`. */
  ghost predicate Reverted(c: Change, fails: nat -> bool, u: nat, k: nat, n: Nodes) {
    if k == 0 then c.InPlace(n, Document) && c.InPlace(n, Record)
    else AfterUndo(c, fails, u, c.stateExisted && k >= c.Backups(), k == c.Backups() + 1, n)
  }

  /** Whichever of the first `limit` calls from `b` on is the first to fail, the rollback has
      been run and is finished. */
  ghost predicate Undid(c: Change, fails: nat -> bool, b: nat, limit: nat, n: Nodes, calls: nat) {
    forall k: nat :: k < limit && FirstFailure(fails, b, k) ==>
      calls == b + 2 * k + 1 && Reverted(c, fails, b + k + 1, k, n)
  }

  lemma UndidThat(c: Change, fails: nat -> bool, b: nat, limit: nat, k: nat, n: Nodes, calls: nat)
    requires FirstFailure(fails, b, k) && calls == b + 2 * k + 1 && Reverted(c, fails, b + k + 1, k, n)
    ensures Undid(c, fails, b, limit, n, calls)
  {
    forall j: nat | j < limit && FirstFailure(fails, b, j) ensures j == k {
      if j != k {
        assert false;
      }
    }
  }

  lemma NothingToUndo(c: Change, fails: nat -> bool, b: nat, limit: nat, n: Nodes, calls: nat)
    requires Clear(fails, b, limit)
    ensures Undid(c, fails, b, limit, n, calls)
  {
  }

  /** The commit's call number `k`, by what it is for. */
  function PhaseOf(c: Change, k: nat): Phase {
    if k == 0 && c.targetExisted then BackupDocument
    else if k < c.Backups() then BackupRecord
    else if k == c.Backups() then InstallDocument
    else InstallRecord
  }

  /** What is reported when the commit's call number `k` is the first to fail: which it was,
      and whether the rollback was clean. */
  ghost predicate Reports(c: Change, fails: nat -> bool, b: nat, k: nat, out: Outcome) {
    out.Halted? && out.at == PhaseOf(c, k) && (out.f.None() <==> Clear(fails, b + k + 1, k))
  }

  ghost predicate ReportsTruly(c: Change, fails: nat -> bool, b: nat, limit: nat, out: Outcome) {
    forall k: nat :: k < limit && FirstFailure(fails, b, k) ==> Reports(c, fails, b, k, out)
  }

  lemma ReportsThat(c: Change, fails: nat -> bool, b: nat, limit: nat, k: nat, f: Failures)
    requires FirstFailure(fails, b, k) && k < c.Backups() + 2
    requires var moved, replaced, u := c.stateExisted && k >= c.Backups(), k == c.Backups() + 1, b + k + 1;
             && (f.removal <==> replaced && fails(u))
             && (f.record <==> moved && fails(u + Count(replaced)))
             && (f.document <==> c.targetExisted && k > 0 && fails(u + Count(replaced) + Count(moved)))
    ensures ReportsTruly(c, fails, b, limit, Halted(PhaseOf(c, k), f))
  {
    var out := Halted(PhaseOf(c, k), f);
    var moved, replaced, u := c.stateExisted && k >= c.Backups(), k == c.Backups() + 1, b + k + 1;
    assert k > 0 ==> Count(replaced) + Count(moved) + Count(c.targetExisted) == k;
    assert Reports(c, fails, b, k, out);
    forall j: nat | j < limit && FirstFailure(fails, b, j) ensures j == k {
      if j != k {
        assert false;
      }
    }
  }

  lemma NothingToReport(c: Change, fails: nat -> bool, b: nat, limit: nat)
    requires Clear(fails, b, limit)
    ensures forall out :: ReportsTruly(c, fails, b, limit, out)
  {
  }

  lemma LaterReport(c: Change, fails: nat -> bool, b: nat, out: Outcome)
    requires Clear(fails, b, c.Backups())
    requires var d := b + c.Backups();
             && (fails(d) ==> out.Halted? && out.at.InstallDocument? && HasFailed(c, fails, d + 1, false, out.f))
             && (!fails(d) && fails(d + 1) ==>
                   out.Halted? && out.at.InstallRecord? && HasFailed(c, fails, d + 2, true, out.f))
    ensures ReportsTruly(c, fails, b, c.Backups() + 2, out)
  {
    var d := b + c.Backups();
    if fails(d) {
      ReportsThat(c, fails, b, c.Backups() + 2, c.Backups(), out.f);
    } else if fails(d + 1) {
      ClearTwice(fails, b, c.Backups(), 1);
      ReportsThat(c, fails, b, c.Backups() + 2, c.Backups() + 1, out.f);
    } else {
      ClearTwice(fails, b, c.Backups(), 2);
      NothingToReport(c, fails, b, c.Backups() + 2);
    }
  }

  lemma EarlierReport(c: Change, fails: nat -> bool, b: nat, out: Outcome)
    requires !Clear(fails, b, c.Backups()) && ReportsTruly(c, fails, b, c.Backups(), out)
    ensures ReportsTruly(c, fails, b, c.Backups() + 2, out)
  {
  }

  /** A rollback none of whose calls fails brings both files back. */
  lemma ClearRollbackReverts(c: Change, fails: nat -> bool, u: nat, k: nat, n: Nodes)
    requires Truthful(c) && k < c.Backups() + 2 && Reverted(c, fails, u, k, n) && Clear(fails, u, k)
    ensures c.InPlace(n, Document) && c.InPlace(n, Record)
  {
    if k > 0 {
      var moved, replaced := c.stateExisted && k >= c.Backups(), k == c.Backups() + 1;
      assert Count(replaced) + Count(moved) + Count(c.targetExisted) == k;
      assert moved ==> !fails(u + Count(replaced));
      assert c.targetExisted ==> !fails(u + Count(replaced) + Count(moved));
      assert replaced ==> !fails(u);
    }
  }

  ghost predicate StagesAreFiles(c: Change, n: Nodes) {
    !IsDirectory(n, c.DocStage()) && !IsDirectory(n, c.RecStage())
  }

  /** The stages are written and the canonical pair is untouched. */
  ghost predicate Staged(c: Change, n: Nodes) {
    && c.Sound() && c.PairAsBefore(n)
    && c.DocBackup() !in n && c.RecBackup() !in n
    && Holds(n, c.DocStage(), File(c.document)) && Holds(n, c.RecStage(), File(c.record))
  }

  /** Both old files, where seen, have moved to their backups. */
  ghost predicate BackedUp(c: Change, n: Nodes) {
    && c.Sound()
    && (if c.targetExisted then Holds(n, c.DocBackup(), c.pre[Doc(c.slug)]) && Doc(c.slug) !in n
        else c.DocBackup() !in n && Same(c.pre, n, Doc(c.slug)))
    && (if c.stateExisted then Holds(n, c.RecBackup(), c.pre[Rec(c.slug)]) && Rec(c.slug) !in n
        else c.RecBackup() !in n && Same(c.pre, n, Rec(c.slug)))
    && Holds(n, c.DocStage(), File(c.document)) && Holds(n, c.RecStage(), File(c.record))
  }

  ghost predicate RolledBack(c: Change, n: Nodes) {
    c.PairAsBefore(n) && c.DocBackup() !in n && c.RecBackup() !in n
  }

  /** The document is set aside if it was there, the record cannot follow, and the rollback
      has been run. */
  lemma RecordStays(c: Change, fails: nat -> bool, b: nat, n: Nodes, calls: nat, f: Failures)
    requires Truthful(c) && c.stateExisted && (c.targetExisted ==> !fails(b)) && fails(b + Count(c.targetExisted))
    requires calls == b + 2 * Count(c.targetExisted) + 1
    requires AfterUndo(c, fails, b + Count(c.targetExisted) + 1, false, false, n)
    requires !f.removal && !f.record
    requires f.document <==> c.targetExisted && fails(b + Count(c.targetExisted) + 1)
    ensures Undid(c, fails, b, c.Backups(), n, calls)
    ensures ReportsTruly(c, fails, b, c.Backups(), Halted(BackupRecord, f))
  {
    var k := Count(c.targetExisted);
    UndidThat(c, fails, b, c.Backups(), k, n, calls);
    ReportsThat(c, fails, b, c.Backups(), k, f);
  }

  method TakeBackups(fs: FileSystem, ghost c: Change, slug: string, suffix: nat, targetExisted: bool,
                     stateExisted: bool)
    returns (out: Outcome)
    requires Staged(c, fs.nodes)
    requires c.slug == slug && c.suffix == suffix && c.targetExisted == targetExisted && c.stateExisted == stateExisted
    modifies fs
    ensures |old(fs.trace)| <= |fs.trace| && fs.trace[..|old(fs.trace)|] == old(fs.trace)
    ensures c.SafeSince(fs.trace, |old(fs.trace)|) && c.Safe(fs.nodes)
    ensures OnlyTouches(old(fs.nodes), fs.nodes, slug, suffix)
    ensures out.Committed? ==> BackedUp(c, fs.nodes)
    ensures out.Halted? ==> out.at.BackupDocument? || out.at.BackupRecord?
    ensures out.Halted? && out.f.None() && c.Honest() ==> RolledBack(c, fs.nodes)
    ensures c.Differs() && c.Honest() ==> !c.MixedSince(fs.trace, |old(fs.trace)|) && !c.IsMixed(fs.nodes)
    ensures out.Committed? <==> Clear(fs.fails, old(fs.calls), Count(targetExisted) + Count(stateExisted))
    ensures Truthful(c) ==> Undid(c, fs.fails, old(fs.calls), c.Backups(), fs.nodes, fs.calls)
    ensures Truthful(c) ==> ReportsTruly(c, fs.fails, old(fs.calls), c.Backups(), out)
    ensures StagesAreFiles(c, fs.nodes)
    ensures out.Committed? ==> fs.calls == old(fs.calls) + Count(targetExisted) + Count(stateExisted)
  {
    ghost var from, b := |fs.trace|, fs.calls;
    if targetExisted {
      var ok := fs.Rename(Doc(slug), Path(slug, Document, Backup(suffix)));
      c.Grow(old(fs.trace), fs.nodes, from);
      if !ok {
        UndidThat(c, fs.fails, b, c.Backups(), 0, fs.nodes, fs.calls);
        ReportsThat(c, fs.fails, b, c.Backups(), 0, Failures(false, false, false));
        return Halted(BackupDocument, Failures(false, false, false));
      }
    }
    if stateExisted {
      ghost var t := fs.trace;
      var f := BackUpRecord(fs, c, slug, suffix, targetExisted);
      c.GrowBy(t, fs.trace, from);
      if f.Some? {
        if Truthful(c) {
          RecordStays(c, fs.fails, b, fs.nodes, fs.calls, f.value);
        }
        return Halted(BackupRecord, f.value);
      }
    }
    NothingToUndo(c, fs.fails, b, c.Backups(), fs.nodes, fs.calls);
    NothingToReport(c, fs.fails, b, c.Backups());
    return Committed;
  }

  /** The stages are written, the document is at its backup if it was there, and the record
      is where it was. */
  ghost predicate DocumentAside(c: Change, n: Nodes) {
    && c.Sound() && Same(c.pre, n, Rec(c.slug)) && c.RecBackup() !in n
    && (if c.targetExisted then Holds(n, c.DocBackup(), c.pre[Doc(c.slug)]) && Doc(c.slug) !in n
        else c.DocBackup() !in n && Same(c.pre, n, Doc(c.slug)))
    && Holds(n, c.DocStage(), File(c.document)) && Holds(n, c.RecStage(), File(c.record))
  }

  /** The failures of the rollback, if the record could not be set aside. */
  method BackUpRecord(fs: FileSystem, ghost c: Change, slug: string, suffix: nat, targetExisted: bool)
    returns (failed: Option<Failures>)
    requires DocumentAside(c, fs.nodes) && c.stateExisted
    requires c.slug == slug && c.suffix == suffix && c.targetExisted == targetExisted
    modifies fs
    ensures |old(fs.trace)| <= |fs.trace| && fs.trace[..|old(fs.trace)|] == old(fs.trace)
    ensures c.SafeSince(fs.trace, |old(fs.trace)|) && c.Safe(fs.nodes)
    ensures OnlyTouches(old(fs.nodes), fs.nodes, slug, suffix)
    ensures failed.None? ==> BackedUp(c, fs.nodes) && fs.calls == old(fs.calls) + 1
    ensures failed.None? <==> !fs.fails(old(fs.calls))
    ensures failed.Some? && failed.value.None() && c.Honest() ==> RolledBack(c, fs.nodes)
    ensures c.Differs() && c.Honest() ==> !c.MixedSince(fs.trace, |old(fs.trace)|) && !c.IsMixed(fs.nodes)
    ensures Truthful(c) && failed.Some? ==>
              && fs.calls == old(fs.calls) + Count(targetExisted) + 1
              && AfterUndo(c, fs.fails, old(fs.calls) + 1, false, false, fs.nodes)
              && !failed.value.removal && !failed.value.record
              && (failed.value.document <==> targetExisted && fs.fails(old(fs.calls) + 1))
    ensures StagesAreFiles(c, fs.nodes)
  {
    ghost var from := |fs.trace|;
    var ok := fs.Rename(Rec(slug), Path(slug, Record, Backup(suffix)));
    c.Grow(old(fs.trace), fs.nodes, from);
    if !ok {
      ghost var t := fs.trace;
      var f := Recover(fs, c, slug, suffix, targetExisted, false, false);
      c.GrowBy(t, fs.trace, from);
      return Some(f);
    }
    return None;
  }

  /** What a backup path holds is what stood at the canonical one. */
  ghost predicate BackupsHoldOld(c: Change, n: Nodes) {
    && (c.DocBackup() in n ==> Holds(c.pre, Doc(c.slug), n[c.DocBackup()]))
    && (c.RecBackup() in n ==> Holds(c.pre, Rec(c.slug), n[c.RecBackup()]))
  }

  /** The document goes in at call `n`, the record does not, the document cannot be taken
      out again, and the old record comes back. */
  predicate MeetingFaults(fails: nat -> bool, n: nat) {
    !fails(n) && fails(n + 1) && fails(n + 2) && !fails(n + 3)
  }

  /** The steps of the rollback with its calls numbered from `u` that fail. */
  predicate HasFailed(c: Change, fails: nat -> bool, u: nat, replaced: bool, f: Failures) {
    && (f.removal <==> replaced && fails(u))
    && (f.record <==> c.stateExisted && fails(u + Count(replaced)))
    && (f.document <==> c.targetExisted && fails(u + Count(replaced) + Count(c.stateExisted)))
  }

  method InstallStages(fs: FileSystem, ghost c: Change, slug: string, suffix: nat, targetExisted: bool,
                       stateExisted: bool)
    returns (out: Outcome)
    requires BackedUp(c, fs.nodes)
    requires c.slug == slug && c.suffix == suffix && c.targetExisted == targetExisted && c.stateExisted == stateExisted
    modifies fs
    ensures |old(fs.trace)| <= |fs.trace| && fs.trace[..|old(fs.trace)|] == old(fs.trace)
    ensures c.SafeSince(fs.trace, |old(fs.trace)|) && c.Safe(fs.nodes)
    ensures OnlyTouches(old(fs.nodes), fs.nodes, slug, suffix)
    ensures out.Committed? ==>
              NewPair(fs.nodes, slug, c.document, c.record) && c.DocStage() !in fs.nodes && c.RecStage() !in fs.nodes
    ensures out.Halted? ==> out.at.InstallDocument? || out.at.InstallRecord?
    ensures out.Halted? && out.f.None() && c.Honest() ==> RolledBack(c, fs.nodes)
    ensures c.Differs() && c.Honest() ==>
              (c.MixedSince(fs.trace, |old(fs.trace)|) <==> out.Met(stateExisted)) &&
              (c.IsMixed(fs.nodes) ==> out.Met(stateExisted))
    ensures out.Committed? ==> BackupsHoldOld(c, fs.nodes)
    ensures c.Honest() ==> (out.Committed? <==> Clear(fs.fails, old(fs.calls), 2))
    ensures c.Honest() ==> (out.Met(stateExisted) <==> stateExisted && MeetingFaults(fs.fails, old(fs.calls)))
    ensures out.Committed? ==> fs.calls == old(fs.calls) + 2
    ensures Truthful(c) && fs.fails(old(fs.calls)) ==>
              && fs.calls == old(fs.calls) + c.Backups() + 1
              && Reverted(c, fs.fails, old(fs.calls) + 1, c.Backups(), fs.nodes)
    ensures Truthful(c) && !fs.fails(old(fs.calls)) && fs.fails(old(fs.calls) + 1) ==>
              && fs.calls == old(fs.calls) + c.Backups() + 3
              && Reverted(c, fs.fails, old(fs.calls) + 2, c.Backups() + 1, fs.nodes)
    ensures Truthful(c) && fs.fails(old(fs.calls)) ==>
              && out.Halted? && out.at.InstallDocument?
              && HasFailed(c, fs.fails, old(fs.calls) + 1, false, out.f)
    ensures Truthful(c) && !fs.fails(old(fs.calls)) && fs.fails(old(fs.calls) + 1) ==>
              && out.Halted? && out.at.InstallRecord?
              && HasFailed(c, fs.fails, old(fs.calls) + 2, true, out.f)
    ensures StagesAreFiles(c, fs.nodes)
  {
    ghost var from := |fs.trace|;
    var ok := fs.Rename(Path(slug, Document, Stage(suffix)), Doc(slug));
    c.Grow(old(fs.trace), fs.nodes, from);
    ghost var t := fs.trace;
    if !ok {
      var f := Recover(fs, c, slug, suffix, targetExisted, stateExisted, false);
      c.GrowBy(t, fs.trace, from);
      return Halted(InstallDocument, f);
    }
    out := InstallRecordStage(fs, c, slug, suffix, targetExisted, stateExisted);
    c.GrowBy(t, fs.trace, from);
  }

  /** The old files are at their backups, and the new document has gone in. */
  ghost predicate HalfInstalled(c: Change, n: Nodes) {
    && c.Sound() && Holds(n, Doc(c.slug), File(c.document)) && c.DocStage() !in n
    && (if c.targetExisted then Holds(n, c.DocBackup(), c.pre[Doc(c.slug)]) else c.DocBackup() !in n)
    && (if c.stateExisted then Holds(n, c.RecBackup(), c.pre[Rec(c.slug)]) && Rec(c.slug) !in n
        else c.RecBackup() !in n && Same(c.pre, n, Rec(c.slug)))
    && Holds(n, c.RecStage(), File(c.record))
  }

  method InstallRecordStage(fs: FileSystem, ghost c: Change, slug: string, suffix: nat, targetExisted: bool,
                            stateExisted: bool)
    returns (out: Outcome)
    requires HalfInstalled(c, fs.nodes)
    requires c.slug == slug && c.suffix == suffix && c.targetExisted == targetExisted && c.stateExisted == stateExisted
    modifies fs
    ensures |old(fs.trace)| <= |fs.trace| && fs.trace[..|old(fs.trace)|] == old(fs.trace)
    ensures c.SafeSince(fs.trace, |old(fs.trace)|) && c.Safe(fs.nodes)
    ensures OnlyTouches(old(fs.nodes), fs.nodes, slug, suffix)
    ensures out.Committed? ==>
              && NewPair(fs.nodes, slug, c.document, c.record) && c.DocStage() !in fs.nodes && c.RecStage() !in fs.nodes
              && BackupsHoldOld(c, fs.nodes) && fs.calls == old(fs.calls) + 1
    ensures out.Halted? ==> out.at.InstallRecord? && (out.f.None() && c.Honest() ==> RolledBack(c, fs.nodes))
    ensures c.Differs() && c.Honest() ==>
              (c.MixedSince(fs.trace, |old(fs.trace)|) <==> out.Met(stateExisted)) &&
              (c.IsMixed(fs.nodes) ==> out.Met(stateExisted))
    ensures c.Honest() ==> (out.Committed? <==> !fs.fails(old(fs.calls)))
    ensures c.Honest() ==>
              (out.Met(stateExisted) <==>
                 stateExisted && fs.fails(old(fs.calls)) && fs.fails(old(fs.calls) + 1) && !fs.fails(old(fs.calls) + 2))
    ensures Truthful(c) && fs.fails(old(fs.calls)) ==>
              && fs.calls == old(fs.calls) + c.Backups() + 2
              && Reverted(c, fs.fails, old(fs.calls) + 1, c.Backups() + 1, fs.nodes)
              && out.Halted? && HasFailed(c, fs.fails, old(fs.calls) + 1, true, out.f)
    ensures StagesAreFiles(c, fs.nodes)
  {
    ghost var from := |fs.trace|;
    var ok := fs.Rename(Path(slug, Record, Stage(suffix)), Rec(slug));
    c.Grow(old(fs.trace), fs.nodes, from);
    if !ok {
      ghost var t := fs.trace;
      var f := Recover(fs, c, slug, suffix, targetExisted, stateExisted, true);
      c.GrowBy(t, fs.trace, from);
      return Halted(InstallRecord, f);
    }
    return Committed;
  }

  /** The four renames and, after a failed one, the rollback. */
  method Commit(fs: FileSystem, ghost c: Change, slug: string, suffix: nat, targetExisted: bool, stateExisted: bool)
    returns (out: Outcome)
    requires Staged(c, fs.nodes)
    requires c.slug == slug && c.suffix == suffix && c.targetExisted == targetExisted && c.stateExisted == stateExisted
    modifies fs
    ensures |old(fs.trace)| <= |fs.trace| && fs.trace[..|old(fs.trace)|] == old(fs.trace)
    ensures c.SafeSince(fs.trace, |old(fs.trace)|) && c.Safe(fs.nodes)
    ensures OnlyTouches(old(fs.nodes), fs.nodes, slug, suffix)
    ensures out.Committed? ==>
              NewPair(fs.nodes, slug, c.document, c.record) && c.DocStage() !in fs.nodes && c.RecStage() !in fs.nodes
    ensures out.Halted? && out.f.None() && c.Honest() ==> RolledBack(c, fs.nodes)
    ensures c.Differs() && c.Honest() ==>
              (c.MixedSince(fs.trace, |old(fs.trace)|) <==> out.Met(stateExisted)) &&
              (c.IsMixed(fs.nodes) ==> out.Met(stateExisted))
    ensures out.Committed? ==> BackupsHoldOld(c, fs.nodes)
    ensures c.Honest() ==>
              (out.Committed? <==> Clear(fs.fails, old(fs.calls), Count(targetExisted) + Count(stateExisted) + 2))
    ensures var backups := Count(targetExisted) + Count(stateExisted);
            c.Honest() ==> (out.Met(stateExisted) <==>
              stateExisted && Clear(fs.fails, old(fs.calls), backups) &&
                  MeetingFaults(fs.fails, old(fs.calls) + backups))
    ensures out.Committed? ==> fs.calls == old(fs.calls) + Count(targetExisted) + Count(stateExisted) + 2
    ensures Truthful(c) ==> Undid(c, fs.fails, old(fs.calls), c.Backups() + 2, fs.nodes, fs.calls)
    ensures Truthful(c) ==> ReportsTruly(c, fs.fails, old(fs.calls), c.Backups() + 2, out)
    ensures StagesAreFiles(c, fs.nodes)
  {
    ghost var b := fs.calls;
    out := TakeBackups(fs, c, slug, suffix, targetExisted, stateExisted);
    if out.Committed? {
      ghost var t := fs.trace;
      out := InstallStages(fs, c, slug, suffix, targetExisted, stateExisted);
      c.GrowBy(t, fs.trace, |old(fs.trace)|);
      ClearTwice(fs.fails, b, Count(targetExisted) + Count(stateExisted), 2);
      if Truthful(c) {
        LaterFailure(c, fs.fails, b, fs.nodes, fs.calls);
        LaterReport(c, fs.fails, b, out);
      }
    } else {
      EarlierFailure(c, fs.fails, b, fs.nodes, fs.calls);
      if Truthful(c) {
        EarlierReport(c, fs.fails, b, out);
      }
    }
  }

  lemma LaterFailure(c: Change, fails: nat -> bool, b: nat, n: Nodes, calls: nat)
    requires Clear(fails, b, c.Backups())
    requires var d := b + c.Backups();
             && (fails(d) ==> calls == d + c.Backups() + 1 && Reverted(c, fails, d + 1, c.Backups(), n))
             && (!fails(d) && fails(d + 1) ==>
                   calls == d + c.Backups() + 3 && Reverted(c, fails, d + 2, c.Backups() + 1, n))
    ensures Undid(c, fails, b, c.Backups() + 2, n, calls)
  {
    var d := b + c.Backups();
    ClearTwice(fails, b, c.Backups(), 1);
    ClearTwice(fails, b, c.Backups(), 2);
    if fails(d) {
      UndidThat(c, fails, b, c.Backups() + 2, c.Backups(), n, calls);
    } else if fails(d + 1) {
      UndidThat(c, fails, b, c.Backups() + 2, c.Backups() + 1, n, calls);
    } else {
      NothingToUndo(c, fails, b, c.Backups() + 2, n, calls);
    }
  }

  lemma EarlierFailure(c: Change, fails: nat -> bool, b: nat, n: Nodes, calls: nat)
    requires !Clear(fails, b, c.Backups())
    ensures Undid(c, fails, b, c.Backups(), n, calls) ==> Undid(c, fails, b, c.Backups() + 2, n, calls)
  {
  }

  lemma ClearTwice(fails: nat -> bool, from: nat, n: nat, m: nat)
    ensures Clear(fails, from, n + m) <==> Clear(fails, from, n) && Clear(fails, from + n, m)
  {
  }

  /** `remove_stages` and `remove_backups`: a missing file is fine, any other error stops. */
  method RemoveBoth(fs: FileSystem, first: Path, second: Path) returns (ok: bool)
    requires first != second
    modifies fs
    ensures ok ==> fs.nodes == old(fs.nodes) - {first, second}
    ensures ok <==>
              && Clear(fs.fails, old(fs.calls), 2)
              && !IsDirectory(old(fs.nodes), first) && !IsDirectory(old(fs.nodes), second)
    ensures fs.fails(old(fs.calls)) || IsDirectory(old(fs.nodes), first) ==> fs.nodes == old(fs.nodes)
    ensures !fs.fails(old(fs.calls)) && !IsDirectory(old(fs.nodes), first) && !ok ==>
              fs.nodes == old(fs.nodes) - {first}
    ensures |old(fs.trace)| <= |fs.trace| && fs.trace[..|old(fs.trace)|] == old(fs.trace)
    ensures AgreesExcept(old(fs.nodes), fs.nodes, {first, second})
    ensures forall k :: |old(fs.trace)| <= k < |fs.trace| ==> AgreesExcept(old(fs.nodes), fs.trace[k], {first, second})
  {
    var r := fs.RemoveFile(first);
    if r.Failed? {
      return false;
    }
    r := fs.RemoveFile(second);
    return !r.Failed?;
  }

  datatype Replacement =
    | Replaced
    | BackupsRemain
    | NotStaged
    | Undone(out: Outcome, stagesGone: bool)

  function ChangeOf(n: Nodes, unreadable: set<Path>, slug: string, suffix: nat, document: Bytes,
                    record: Bytes): (c: Change)
    ensures c.Sound()
  {
    Change(n, slug, suffix, document, record, Visible(n, unreadable, Doc(slug)), Visible(n, unreadable, Rec(slug)))
  }

  /** A stage that does not disturb the pair or its backups. */
  lemma StageIsQuiet(c: Change, n: Nodes, u: Nodes)
    requires AgreesExcept(n, u, {c.DocStage(), c.RecStage()})
    ensures c.Safe(u) <==> c.Safe(n)
    ensures c.IsMixed(u) <==> c.IsMixed(n)
    ensures c.PairAsBefore(u) <==> c.PairAsBefore(n)
    ensures OnlyTouches(n, u, c.slug, c.suffix)
  {
    assert Same(n, u, Doc(c.slug)) && Same(n, u, Rec(c.slug)) && Same(n, u, c.DocBackup()) && Same(n, u, c.RecBackup());
  }

  lemma StagesAreQuiet(c: Change, n: Nodes, trace: seq<Nodes>, from: nat)
    requires forall k :: from <= k < |trace| ==> AgreesExcept(n, trace[k], {c.DocStage(), c.RecStage()})
    requires c.Safe(n)
    ensures c.SafeSince(trace, from)
    ensures !c.IsMixed(n) ==> !c.MixedSince(trace, from)
  {
    forall k | from <= k < |trace|
      ensures c.Safe(trace[k]) && (c.IsMixed(trace[k]) <==> c.IsMixed(n))
    {
      StageIsQuiet(c, n, trace[k]);
    }
  }

  method StagePair(fs: FileSystem, ghost c: Change, slug: string, suffix: nat, document: Bytes, record: Bytes)
    returns (ok: bool)
    requires FreshSuffix(fs.nodes, slug, suffix)
    requires c == ChangeOf(fs.nodes, fs.unreadable, slug, suffix, document, record)
    modifies fs
    ensures |old(fs.trace)| <= |fs.trace| && fs.trace[..|old(fs.trace)|] == old(fs.trace)
    ensures AgreesExcept(old(fs.nodes), fs.nodes, {c.DocStage(), c.RecStage()})
    ensures forall k :: |old(fs.trace)| <= k < |fs.trace| ==>
              AgreesExcept(old(fs.nodes), fs.trace[k], {c.DocStage(), c.RecStage()})
    ensures ok ==> Staged(c, fs.nodes)
    ensures ok <==> Clear(fs.fails, old(fs.calls), 6)
    ensures ok ==> fs.calls == old(fs.calls) + 6
  {
    ghost var b := fs.calls;
    ok := fs.CreateDirs();
    if !ok { return; }
    ok := fs.CreateDirs();
    if !ok { return; }
    ok := fs.WriteNewFile(Path(slug, Document, Stage(suffix)), document);
    AgreeWithout(old(fs.nodes), fs.nodes, c.DocStage());
    forall k | |old(fs.trace)| <= k < |fs.trace|
      ensures AgreesExcept(old(fs.nodes), fs.trace[k], {c.DocStage()})
    {
      AgreeWithout(old(fs.nodes), fs.trace[k], c.DocStage());
    }
    if !ok { return; }
    ghost var mid, t := fs.nodes, fs.trace;
    ok := fs.WriteNewFile(Path(slug, Record, Stage(suffix)), record);
    AgreeWithout(mid, fs.nodes, c.RecStage());
    forall k | |t| <= k < |fs.trace|
      ensures AgreesExcept(old(fs.nodes), fs.trace[k], {c.DocStage(), c.RecStage()})
    {
      AgreeWithout(mid, fs.trace[k], c.RecStage());
      AgreeTwice(old(fs.nodes), mid, fs.trace[k], c.DocStage(), c.RecStage());
    }
    AgreeTwice(old(fs.nodes), mid, fs.nodes, c.DocStage(), c.RecStage());
  }

  lemma AgreeTwice(a: Nodes, b: Nodes, d: Nodes, p: Path, q: Path)
    requires AgreesExcept(a, b, {p}) && AgreesExcept(b, d, {q})
    ensures AgreesExcept(a, d, {p, q})
  {
    forall x | x !in {p, q}
      ensures Same(a, d, x)
    {
      assert Same(a, b, x) && Same(b, d, x);
    }
  }

  lemma NothingElseChanged(c: Change, u: Nodes)
    requires FreshSuffix(c.pre, c.slug, c.suffix) && OnlyTouches(c.pre, u, c.slug, c.suffix)
    requires c.DocStage() !in u && c.RecStage() !in u && c.DocBackup() !in u && c.RecBackup() !in u
    ensures NewPair(u, c.slug, c.document, c.record) ==>
              u == c.pre[Doc(c.slug) := File(c.document)][Rec(c.slug) := File(c.record)]
    ensures c.PairAsBefore(u) ==> u == c.pre
  {
    forall p | p != Doc(c.slug) && p != Rec(c.slug)
      ensures Same(c.pre, u, p)
    {
      if InScope(p, c.slug, c.suffix) {
        assert p.role == Document || p.role == Record;
        assert p in {c.DocStage(), c.RecStage(), c.DocBackup(), c.RecBackup()};
        assert Path(c.slug, p.role, Stage(c.suffix)) !in c.pre && Path(c.slug, p.role, Backup(c.suffix)) !in c.pre;
      }
    }
    if c.PairAsBefore(u) {
      SameEverywhere(c.pre, u);
    }
    if NewPair(u, c.slug, c.document, c.record) {
      var w := c.pre[Doc(c.slug) := File(c.document)][Rec(c.slug) := File(c.record)];
      forall p
        ensures Same(w, u, p)
      {
        assert p != Doc(c.slug) && p != Rec(c.slug) ==> Same(c.pre, u, p);
      }
      SameEverywhere(w, u);
    }
  }

  lemma SameEverywhere(a: Nodes, b: Nodes)
    requires forall p :: Same(a, b, p)
    ensures a == b
  {
    forall p
      ensures (p in a <==> p in b) && (p in a ==> a[p] == b[p])
    {
      assert Same(a, b, p);
    }
  }

  lemma AgreeWithout(a: Nodes, b: Nodes, p: Path)
    requires a - {p} == b - {p}
    ensures AgreesExcept(a, b, {p})
  {
    forall q | q != p
      ensures Same(a, b, q)
    {
      assert q in a - {p} <==> q in b - {p};
      assert q in a ==> (a - {p})[q] == (b - {p})[q];
    }
  }

  /** No fault pattern loses anything at any step. With `exists` telling the truth, the pair
      is replaced exactly when no call fails; success leaves exactly the new pair; a
      rollback without failures leaves exactly the old one; and the new document stands
      beside the old record under exactly one pattern of faults. */
  method ReplacePair(fs: FileSystem, slug: string, suffix: nat, document: Bytes, record: Bytes)
    returns (r: Replacement)
    requires FreshSuffix(fs.nodes, slug, suffix)
    modifies fs
    ensures |old(fs.trace)| <= |fs.trace| && fs.trace[..|old(fs.trace)|] == old(fs.trace)
    ensures OnlyTouches(old(fs.nodes), fs.nodes, slug, suffix)
    ensures r.Replaced? ==> fs.nodes == old(fs.nodes)[Doc(slug) := File(document)][Rec(slug) := File(record)]
    ensures r.BackupsRemain? ==> NewPair(fs.nodes, slug, document, record)
    ensures r.Undone? ==> r.out.Halted?
    ensures r.NotStaged? <==> !Clear(fs.fails, old(fs.calls), 6)
    ensures var c := ChangeOf(old(fs.nodes), fs.unreadable, slug, suffix, document, record);
            && c.SafeSince(fs.trace, |old(fs.trace)|) && c.Safe(fs.nodes)
            && (r.NotStaged? ==> c.PairAsBefore(fs.nodes))
            && (r.Undone? && r.out.f.None() && c.Honest() ==>
                  c.PairAsBefore(fs.nodes) && (r.stagesGone ==> fs.nodes == old(fs.nodes)))
    ensures var c := ChangeOf(old(fs.nodes), fs.unreadable, slug, suffix, document, record);
            var backups := c.Backups();
            && (c.Honest() ==>
                  (r.Replaced? || r.BackupsRemain? <==> Clear(fs.fails, old(fs.calls), 8 + backups)))
            && (c.Honest() && !IsDirectory(old(fs.nodes), Doc(slug)) && !IsDirectory(old(fs.nodes), Rec(slug)) ==>
                  (r.Replaced? <==> Clear(fs.fails, old(fs.calls), 10 + backups)))
            && (c.Differs() && c.Honest() ==>
                  (c.MixedSince(fs.trace, |old(fs.trace)|) <==>
                     c.stateExisted && Clear(fs.fails, old(fs.calls), 6 + backups) &&
                     MeetingFaults(fs.fails, old(fs.calls) + 6 + backups)))
    ensures var c := ChangeOf(old(fs.nodes), fs.unreadable, slug, suffix, document, record);
            Truthful(c) && Clear(fs.fails, old(fs.calls), 6) ==>
              && AfterFailures(c, fs.fails, old(fs.calls) + 6, fs.nodes)
              && AllReported(c, fs.fails, old(fs.calls) + 6, r)
  {
    ghost var n, from, b := fs.nodes, |fs.trace|, fs.calls;
    ghost var c := ChangeOf(n, fs.unreadable, slug, suffix, document, record);
    var ok := StagePair(fs, c, slug, suffix, document, record);
    StageIsQuiet(c, n, fs.nodes);
    StagesAreQuiet(c, n, fs.trace, from);
    if !ok {
      return NotStaged;
    }
    ghost var t, staged := fs.trace, fs.nodes;
    var targetExisted, stateExisted := fs.Exists(Doc(slug)), fs.Exists(Rec(slug));
    assert Same(n, fs.nodes, Doc(slug)) && Same(n, fs.nodes, Rec(slug));
    r := CommitAndClean(fs, c, slug, suffix, targetExisted, stateExisted);
    c.GrowBy(t, fs.trace, from);
    ClearTwice(fs.fails, b, 6, c.Backups());
    ClearTwice(fs.fails, b, 6, c.Backups() + 2);
    ClearTwice(fs.fails, b, 6, c.Backups() + 4);
  }

  /** What a replacement leaves when the commit's call number `k` is the first to fail: the
      rollback's work, all of it unless it fails in turn; and nothing else, unless the
      clearing of the stages fails. */
  ghost predicate AfterFailure(c: Change, fails: nat -> bool, u: nat, k: nat, n: Nodes) {
    && Reverted(c, fails, u, k, n)
    && (Clear(fails, u, k) ==> c.InPlace(n, Document) && c.InPlace(n, Record))
    && (Clear(fails, u, k + 2) ==> n == c.pre)
  }

  lemma NoFailures(c: Change, fails: nat -> bool, b: nat)
    requires Clear(fails, b, c.Backups() + 2)
    ensures forall n :: AfterFailures(c, fails, b, n)
  {
  }

  ghost predicate AfterFailures(c: Change, fails: nat -> bool, b: nat, n: Nodes) {
    forall k: nat :: k < c.Backups() + 2 && FirstFailure(fails, b, k) ==> AfterFailure(c, fails, b + k + 1, k, n)
  }

  /** What is reported then: which call it was, whether the rollback was clean, and whether
      the stages are gone. */
  ghost predicate AllReported(c: Change, fails: nat -> bool, b: nat, r: Replacement) {
    forall k: nat :: k < c.Backups() + 2 && FirstFailure(fails, b, k) ==>
      && r.Undone? && Reports(c, fails, b, k, r.out)
      && (r.stagesGone <==> Clear(fails, b + 2 * k + 1, 2))
  }

  method CommitAndClean(fs: FileSystem, ghost c: Change, slug: string, suffix: nat, targetExisted: bool,
                        stateExisted: bool)
    returns (r: Replacement)
    requires Staged(c, fs.nodes) && FreshSuffix(c.pre, slug, suffix) && OnlyTouches(c.pre, fs.nodes, slug, suffix)
    requires c.slug == slug && c.suffix == suffix && c.targetExisted == targetExisted && c.stateExisted == stateExisted
    modifies fs
    ensures |old(fs.trace)| <= |fs.trace| && fs.trace[..|old(fs.trace)|] == old(fs.trace)
    ensures OnlyTouches(c.pre, fs.nodes, slug, suffix) && !r.NotStaged? && (r.Undone? ==> r.out.Halted?)
    ensures c.SafeSince(fs.trace, |old(fs.trace)|) && c.Safe(fs.nodes)
    ensures r.Replaced? ==> fs.nodes == c.pre[Doc(slug) := File(c.document)][Rec(slug) := File(c.record)]
    ensures r.BackupsRemain? ==> NewPair(fs.nodes, slug, c.document, c.record)
    ensures r.Undone? && r.out.f.None() && c.Honest() ==>
              c.PairAsBefore(fs.nodes) && (r.stagesGone ==> fs.nodes == c.pre)
    ensures c.Honest() ==> (r.Replaced? || r.BackupsRemain? <==> Clear(fs.fails, old(fs.calls), c.Backups() + 2))
    ensures Truthful(c) ==> AfterFailures(c, fs.fails, old(fs.calls), fs.nodes)
    ensures Truthful(c) ==> AllReported(c, fs.fails, old(fs.calls), r)
    ensures c.Honest() && !IsDirectory(c.pre, Doc(slug)) && !IsDirectory(c.pre, Rec(slug)) ==>
              (r.Replaced? <==> Clear(fs.fails, old(fs.calls), c.Backups() + 4))
    ensures c.Differs() && c.Honest() ==>
              (c.MixedSince(fs.trace, |old(fs.trace)|) <==>
                 c.stateExisted && Clear(fs.fails, old(fs.calls), c.Backups()) &&
                 MeetingFaults(fs.fails, old(fs.calls) + c.Backups()))
  {
    ghost var from, b, n := |fs.trace|, fs.calls, fs.nodes;
    var out := Commit(fs, c, slug, suffix, targetExisted, stateExisted);
    TouchesTwice(c, n, fs.nodes);
    ClearTwice(fs.fails, b, c.Backups() + 2, 2);
    if out.Committed? {
      if Truthful(c) {
        NoFailures(c, fs.fails, b);
        NoReports(c, fs.fails, b);
      }
      r := DiscardBackups(fs, c, slug, suffix, from);
    } else {
      ghost var halted, calls := fs.nodes, fs.calls;
      var stagesGone := DiscardStages(fs, c, slug, suffix, from, out);
      if Truthful(c) {
        AllClearedStages(c, fs.fails, b, halted, calls, fs.nodes, stagesGone);
      }
      r := Undone(out, stagesGone);
      if Truthful(c) {
        AllAreReported(c, fs.fails, b, halted, calls, r);
      }
    }
  }

  lemma NoReports(c: Change, fails: nat -> bool, b: nat)
    requires Clear(fails, b, c.Backups() + 2)
    ensures forall r :: AllReported(c, fails, b, r)
  {
  }

  lemma AllAreReported(c: Change, fails: nat -> bool, b: nat, halted: Nodes, calls: nat, r: Replacement)
    requires r.Undone? && ReportsTruly(c, fails, b, c.Backups() + 2, r.out)
    requires Undid(c, fails, b, c.Backups() + 2, halted, calls) && (r.stagesGone <==> Clear(fails, calls, 2))
    ensures AllReported(c, fails, b, r)
  {
  }

  lemma ClearedStages(c: Change, fails: nat -> bool, u: nat, k: nat, halted: Nodes, n: Nodes, stagesGone: bool)
    requires Truthful(c) && k < c.Backups() + 2 && Reverted(c, fails, u, k, halted)
    requires AgreesExcept(halted, n, {c.DocStage(), c.RecStage()})
    requires FreshSuffix(c.pre, c.slug, c.suffix) && OnlyTouches(c.pre, n, c.slug, c.suffix)
    requires stagesGone <==> Clear(fails, u + k, 2)
    requires stagesGone ==> c.DocStage() !in n && c.RecStage() !in n
    ensures AfterFailure(c, fails, u, k, n)
  {
    assert Same(halted, n, Doc(c.slug)) && Same(halted, n, Rec(c.slug));
    assert Same(halted, n, c.DocBackup()) && Same(halted, n, c.RecBackup());
    ClearTwice(fails, u, k, 2);
    if Clear(fails, u, k) {
      ClearRollbackReverts(c, fails, u, k, n);
      if stagesGone {
        NothingElseChanged(c, n);
      }
    }
  }

  lemma AllClearedStages(c: Change, fails: nat -> bool, b: nat, halted: Nodes, calls: nat, n: Nodes, stagesGone: bool)
    requires Truthful(c) && Undid(c, fails, b, c.Backups() + 2, halted, calls)
    requires AgreesExcept(halted, n, {c.DocStage(), c.RecStage()})
    requires FreshSuffix(c.pre, c.slug, c.suffix) && OnlyTouches(c.pre, n, c.slug, c.suffix)
    requires stagesGone <==> Clear(fails, calls, 2)
    requires stagesGone ==> c.DocStage() !in n && c.RecStage() !in n
    ensures AfterFailures(c, fails, b, n)
  {
    forall k: nat | k < c.Backups() + 2 && FirstFailure(fails, b, k)
      ensures AfterFailure(c, fails, b + k + 1, k, n)
    {
      ClearedStages(c, fails, b + k + 1, k, halted, n, stagesGone);
    }
  }

  lemma TouchesTwice(c: Change, n: Nodes, u: Nodes)
    requires OnlyTouches(c.pre, n, c.slug, c.suffix) && OnlyTouches(n, u, c.slug, c.suffix)
    ensures OnlyTouches(c.pre, u, c.slug, c.suffix)
  {
    forall p | !InScope(p, c.slug, c.suffix)
      ensures Same(c.pre, u, p)
    {
      assert Same(c.pre, n, p) && Same(n, u, p);
    }
  }

  /** After a commit. */
  method DiscardBackups(fs: FileSystem, ghost c: Change, slug: string, suffix: nat, ghost from: nat)
    returns (r: Replacement)
    requires c.slug == slug && c.suffix == suffix && from <= |fs.trace|
    requires FreshSuffix(c.pre, slug, suffix) && OnlyTouches(c.pre, fs.nodes, slug, suffix)
    requires NewPair(fs.nodes, slug, c.document, c.record) && BackupsHoldOld(c, fs.nodes)
    requires c.DocStage() !in fs.nodes && c.RecStage() !in fs.nodes
    modifies fs
    ensures |old(fs.trace)| <= |fs.trace| && fs.trace[..|old(fs.trace)|] == old(fs.trace)
    ensures OnlyTouches(c.pre, fs.nodes, slug, suffix) && NewPair(fs.nodes, slug, c.document, c.record)
    ensures c.SafeSince(fs.trace, from) <==> c.SafeSince(old(fs.trace), from)
    ensures c.Differs() ==> (c.MixedSince(fs.trace, from) <==> c.MixedSince(old(fs.trace), from))
    ensures r.Replaced? || r.BackupsRemain?
    ensures r.Replaced? ==> fs.nodes == c.pre[Doc(slug) := File(c.document)][Rec(slug) := File(c.record)]
    ensures !IsDirectory(c.pre, Doc(slug)) && !IsDirectory(c.pre, Rec(slug)) ==>
              (r.Replaced? <==> Clear(fs.fails, old(fs.calls), 2))
  {
    ghost var t, done := fs.trace, fs.nodes;
    var ok := RemoveBoth(fs, Path(slug, Document, Backup(suffix)), Path(slug, Record, Backup(suffix)));
    BackupsAreSpent(c, done, fs.nodes);
    forall k | |t| <= k < |fs.trace|
      ensures NewPair(fs.trace[k], slug, c.document, c.record)
    {
      BackupsAreSpent(c, done, fs.trace[k]);
    }
    c.GrowBy(t, fs.trace, from);
    if !ok {
      return BackupsRemain;
    }
    NothingElseChanged(c, fs.nodes);
    return Replaced;
  }

  /** After a failed commit and its rollback. */
  method DiscardStages(fs: FileSystem, ghost c: Change, slug: string, suffix: nat, ghost from: nat, ghost out: Outcome)
    returns (ok: bool)
    requires c.slug == slug && c.suffix == suffix && from <= |fs.trace| && out.Halted?
    requires FreshSuffix(c.pre, slug, suffix) && OnlyTouches(c.pre, fs.nodes, slug, suffix)
    requires c.Safe(fs.nodes) && (out.f.None() && c.Honest() ==> RolledBack(c, fs.nodes))
    requires c.Differs() && c.Honest() && c.IsMixed(fs.nodes) ==> c.MixedSince(fs.trace, from)
    requires StagesAreFiles(c, fs.nodes)
    modifies fs
    ensures |old(fs.trace)| <= |fs.trace| && fs.trace[..|old(fs.trace)|] == old(fs.trace)
    ensures OnlyTouches(c.pre, fs.nodes, slug, suffix) && c.Safe(fs.nodes)
    ensures c.SafeSince(fs.trace, from) <==> c.SafeSince(old(fs.trace), from)
    ensures c.Differs() && c.Honest() ==> (c.MixedSince(fs.trace, from) <==> c.MixedSince(old(fs.trace), from))
    ensures out.f.None() && c.Honest() ==> c.PairAsBefore(fs.nodes) && (ok ==> fs.nodes == c.pre)
    ensures AgreesExcept(old(fs.nodes), fs.nodes, {c.DocStage(), c.RecStage()})
    ensures ok <==> Clear(fs.fails, old(fs.calls), 2)
    ensures ok ==> c.DocStage() !in fs.nodes && c.RecStage() !in fs.nodes
  {
    ghost var t, done := fs.trace, fs.nodes;
    ok := RemoveBoth(fs, Path(slug, Document, Stage(suffix)), Path(slug, Record, Stage(suffix)));
    StageIsQuiet(c, done, fs.nodes);
    StagesAreQuiet(c, done, fs.trace, |t|);
    c.GrowBy(t, fs.trace, from);
    if ok && out.f.None() && c.Honest() {
      NothingElseChanged(c, fs.nodes);
    }
  }

  lemma BackupsAreSpent(c: Change, n: Nodes, u: Nodes)
    requires AgreesExcept(n, u, {c.DocBackup(), c.RecBackup()}) && NewPair(n, c.slug, c.document, c.record)
    ensures NewPair(u, c.slug, c.document, c.record)
    ensures OnlyTouches(n, u, c.slug, c.suffix)
  {
    assert Same(n, u, Doc(c.slug)) && Same(n, u, Rec(c.slug));
  }

  /** With both files there, the calls from number 8 on are the two installations, the removal
      of the new document and the record's return. If the second and third alone fail, a new
      document does stand beside the old record. */
  method MixedPairWitness() returns (fs: FileSystem)
    ensures fresh(fs)
    ensures var old1, old2 := File([1]), File([2]);
            exists k :: 0 <= k < |fs.trace| &&
              Mixed(map[Doc("a") := old1, Rec("a") := old2], fs.trace[k], "a", [3])
  {
    var nodes: Nodes := map[Doc("a") := File([1]), Rec("a") := File([2])];
    fs := new FileSystem(nodes, k => k == 9 || k == 10, _ => 0, {});
    ghost var c := ChangeOf(nodes, {}, "a", 0, [3], [4]);
    assert c.Honest() && c.Differs() && c.Backups() == 2;
    var r := ReplacePair(fs, "a", 0, [3], [4]);
    assert c.MixedSince(fs.trace, 0);
  }

  // ---------------------------------------------------------------- removing the pair

  datatype Removal =
    | Cleared
    | BackupsLinger
    | NotRemoved(f: Failures)

  ghost predicate Gone(n: Nodes, slug: string) {
    Doc(slug) !in n && Rec(slug) !in n
  }

  ghost function RemovalOf(n: Nodes, slug: string, suffix: nat, hasTarget: bool): Change {
    Change(n, slug, suffix, [], [], hasTarget, true)
  }

  /** The files once both have moved to their backups. */
  ghost function SetAside(c: Change): Nodes
    requires Rec(c.slug) in c.pre && (c.targetExisted ==> Doc(c.slug) in c.pre)
  {
    Moved(if c.targetExisted then Moved(c.pre, Doc(c.slug), c.DocBackup()) else c.pre, Rec(c.slug), c.RecBackup())
  }

  /** The document has been set aside, the record cannot follow, and the document cannot be
      brought back. */
  predicate DocumentIsStuck(fails: nat -> bool, b: nat, hasTarget: bool) {
    hasTarget && !fails(b) && fails(b + 1) && fails(b + 2)
  }

  method StageRemoval(fs: FileSystem, slug: string, suffix: nat, hasTarget: bool) returns (failed: Option<Failures>)
    requires FreshSuffix(fs.nodes, slug, suffix)
    requires Rec(slug) in fs.nodes && (hasTarget <==> Doc(slug) in fs.nodes)
    modifies fs
    ensures |old(fs.trace)| <= |fs.trace| && fs.trace[..|old(fs.trace)|] == old(fs.trace)
    ensures OnlyTouches(old(fs.nodes), fs.nodes, slug, suffix)
    ensures failed == Some(Failures(false, false, false)) ==> fs.nodes == old(fs.nodes)
    ensures var c := RemovalOf(old(fs.nodes), slug, suffix, hasTarget);
            && c.KeptAll(fs.nodes) && (failed.None? ==> fs.nodes == SetAside(c))
            && forall k :: |old(fs.trace)| <= k < |fs.trace| ==> c.KeptAll(fs.trace[k])
    ensures failed.None? <==> Clear(fs.fails, old(fs.calls), 1 + Count(hasTarget))
    ensures failed.None? ==> fs.calls == old(fs.calls) + 1 + Count(hasTarget)
    ensures var stuck := DocumentIsStuck(fs.fails, old(fs.calls), hasTarget);
            failed.Some? ==>
              && failed.value == Failures(false, false, stuck)
              && fs.nodes == (if stuck then Moved(old(fs.nodes), Doc(slug), Path(slug, Document, Backup(suffix)))
                              else old(fs.nodes))
  {
    ghost var n := fs.nodes;
    ghost var c := RemovalOf(n, slug, suffix, hasTarget);
    var docBackup := Path(slug, Document, Backup(suffix));
    assert docBackup !in n && Path(slug, Record, Backup(suffix)) !in n;
    if hasTarget {
      var ok := fs.Rename(Doc(slug), docBackup);
      if !ok {
        return Some(Failures(false, false, false));
      }
    }
    ghost var staged := fs.nodes;
    var ok := fs.Rename(Rec(slug), Path(slug, Record, Backup(suffix)));
    if !ok {
      var f := RestorePair(fs, c, slug, suffix, hasTarget, false, false);
      RollbackKeeps(c, staged, false, false, f);
      MovedBack(n, Doc(slug), docBackup);
      assert fs.nodes == DocumentBack(c, staged, f);
      return Some(f);
    }
    return None;
  }

  /** Until both files have moved to their backups, whatever fails, both survive; only
      then are they deleted, and exactly when no call fails both are. */
  method RemovePair(fs: FileSystem, slug: string, suffix: nat, hasTarget: bool) returns (r: Removal)
    requires FreshSuffix(fs.nodes, slug, suffix)
    requires Rec(slug) in fs.nodes && (hasTarget <==> Doc(slug) in fs.nodes)
    modifies fs
    ensures |old(fs.trace)| <= |fs.trace| && fs.trace[..|old(fs.trace)|] == old(fs.trace)
    ensures OnlyTouches(old(fs.nodes), fs.nodes, slug, suffix)
    ensures r.Cleared? ==> fs.nodes == old(fs.nodes) - {Doc(slug), Rec(slug)}
    ensures r.BackupsLinger? ==> Gone(fs.nodes, slug)
    ensures r.NotRemoved? && r.f.None() ==> fs.nodes == old(fs.nodes)
    ensures r.NotRemoved? ==>
              r.f == Failures(false, false, DocumentIsStuck(fs.fails, old(fs.calls), hasTarget)) &&
              fs.nodes == (if DocumentIsStuck(fs.fails, old(fs.calls), hasTarget)
                           then Moved(old(fs.nodes), Doc(slug), Path(slug, Document, Backup(suffix)))
                           else old(fs.nodes))
    ensures var c := RemovalOf(old(fs.nodes), slug, suffix, hasTarget);
            r.BackupsLinger? ==> fs.nodes == SetAside(c) || (hasTarget && fs.nodes == SetAside(c) - {c.DocBackup()})
    ensures r.NotRemoved? <==> !Clear(fs.fails, old(fs.calls), 1 + Count(hasTarget))
    ensures !IsDirectory(old(fs.nodes), Doc(slug)) && !IsDirectory(old(fs.nodes), Rec(slug)) ==>
              (r.Cleared? <==> Clear(fs.fails, old(fs.calls), 2 + 2 * Count(hasTarget)))
    ensures var c := RemovalOf(old(fs.nodes), slug, suffix, hasTarget);
            && (r.NotRemoved? ==> c.KeptAll(fs.nodes))
            && forall k :: |old(fs.trace)| <= k < |fs.trace| ==> c.KeptAll(fs.trace[k]) || Gone(fs.trace[k], slug)
  {
    ghost var n := fs.nodes;
    assert Path(slug, Document, Backup(suffix)) !in n && Path(slug, Record, Backup(suffix)) !in n;
    ghost var b := fs.calls;
    var failed := StageRemoval(fs, slug, suffix, hasTarget);
    ClearTwice(fs.fails, b, 1 + Count(hasTarget), 1 + Count(hasTarget));
    if failed.Some? {
      return NotRemoved(failed.value);
    }
    if hasTarget {
      var gone := fs.RemoveFile(Path(slug, Document, Backup(suffix)));
      if !gone.Done? {
        return BackupsLinger;
      }
    }
    var gone := fs.RemoveFile(Path(slug, Record, Backup(suffix)));
    if !gone.Done? {
      return BackupsLinger;
    }
    return Cleared;
  }

  lemma MovedBack(n: Nodes, p: Path, q: Path)
    requires q !in n && p != q
    ensures p in n ==> Moved(Moved(n, p, q), q, p) == n
  {
  }
}
