/** The canonical fingerprint of what a genesis is built from (internal/application/services/input_set_hash.go). */
module InputSets {
  import opened Prelude
  import opened Launches
  import opened JoinRequests
  import opened Sorting

  /** The chain fields as they are hashed; the genesis time keeps whole seconds only. */
  datatype HashChain = HashChain(
    chainId: string, bech32Prefix: string, denom: string, totalSupply: string,
    minSelfDelegation: string, maxCommissionRate: string, maxCommissionChangeRate: string,
    minValidatorCount: int, genesisSecond: Option<int>,
    binaryName: string, binaryVersion: string, binarySha256: Hash, repoUrl: string, repoCommit: string)

  datatype HashGentx = HashGentx(operator: Account, consensusKey: string, gentxSha256: Hash)

  datatype HashFiles = HashFiles(
    accounts: Option<Hash>, claims: Option<Hash>, grants: Option<Hash>, authz: Option<Hash>, feegrant: Option<Hash>)

  datatype HashInput = HashInput(chain: HashChain, gentxs: seq<HashGentx>, files: HashFiles)

  /** SHA-256 over the canonical JSON of the input set, and over a gentx. */
  datatype Hashing = Hashing(digest: HashInput -> Hash, gentxDigest: string -> Hash)

  ghost predicate CollisionFree(h: Hashing) {
    && (forall a, b :: h.digest(a) == h.digest(b) ==> a == b)
    && (forall a, b :: h.gentxDigest(a) == h.gentxDigest(b) ==> a == b)
  }

  function SecondOf(t: Option<Time>): Option<int> {
    match t
    case None => None
    case Some(ns) => Some(ns / SECOND)
  }

  function ChainOf(r: ChainRecord): HashChain {
    HashChain(r.chainId, r.bech32Prefix, r.denom, r.totalSupply, r.minSelfDelegation, r.maxCommissionRate,
              r.maxCommissionChangeRate, r.minValidatorCount, SecondOf(r.genesisTime), r.binaryName,
              r.binaryVersion, r.binarySha256, r.repoUrl, r.repoCommit)
  }

  function EntryOf(h: Hashing, r: JoinRow): HashGentx {
    HashGentx(r.operator, r.consensusKey, h.gentxDigest(r.gentx))
  }

  function OperatorKey(): JoinRow -> string {
    (r: JoinRow) => r.operator
  }

  function KindName(k: AllocationType): string {
    match k
    case Accounts => "accounts"
    case Claims => "claims"
    case Grants => "grants"
    case Authz => "authz"
    case Feegrant => "feegrant"
  }

  function KindKey(): AllocationFile -> string {
    (f: AllocationFile) => KindName(f.kind)
  }

  function ApprovedFiles(files: seq<AllocationFile>): seq<AllocationFile> {
    if files == [] then []
    else
      var n := |files| - 1;
      ApprovedFiles(files[..n]) + if files[n].status == AllocationApproved then [files[n]] else []
  }

  function SetFile(fs: HashFiles, kind: AllocationType, sha: Hash): HashFiles {
    match kind
    case Accounts => fs.(accounts := Some(sha))
    case Claims => fs.(claims := Some(sha))
    case Grants => fs.(grants := Some(sha))
    case Authz => fs.(authz := Some(sha))
    case Feegrant => fs.(feegrant := Some(sha))
  }

  function FileOf(fs: HashFiles, kind: AllocationType): Option<Hash> {
    match kind
    case Accounts => fs.accounts
    case Claims => fs.claims
    case Grants => fs.grants
    case Authz => fs.authz
    case Feegrant => fs.feegrant
  }

  function FilesOf(files: seq<AllocationFile>): HashFiles {
    if files == [] then HashFiles(None, None, None, None, None)
    else
      var n := |files| - 1;
      SetFile(FilesOf(files[..n]), files[n].kind, files[n].sha256)
  }

  ghost function EntriesOf(h: Hashing, rows: seq<JoinRow>): seq<HashGentx> {
    Image(rows, (x: JoinRow) => EntryOf(h, x))
  }

  ghost function InputSet(h: Hashing, r: ChainRecord, rows: seq<JoinRow>, files: seq<AllocationFile>): HashInput {
    HashInput(ChainOf(r),
              EntriesOf(h, Sort(ApprovedRows(rows), OperatorKey())),
              FilesOf(SortedFiles(files)))
  }

  ghost function Fingerprint(h: Hashing, r: ChainRecord, rows: seq<JoinRow>, files: seq<AllocationFile>): Hash {
    h.digest(InputSet(h, r, rows, files))
  }

  // ----- The method

  /** Hashes the sorted gentxs entry by entry, and at most one file hash per type. */
  method ComputeInputSetHash(h: Hashing, r: ChainRecord, gentxs: seq<JoinRow>, allocations: seq<AllocationFile>)
    returns (hash: Hash)
    ensures hash == h.digest(HashInput(ChainOf(r), EntriesOf(h, gentxs), FilesOf(allocations)))
  {
    var entries: seq<HashGentx> := [];
    for i := 0 to |gentxs|
      invariant |entries| == i
      invariant forall k :: 0 <= k < i ==> entries[k] == EntryOf(h, gentxs[k])
    {
      entries := entries + [EntryOf(h, gentxs[i])];
    }
    assert entries == EntriesOf(h, gentxs);

    var files := HashFiles(None, None, None, None, None);
    for i := 0 to |allocations|
      invariant files == FilesOf(allocations[..i])
    {
      assert allocations[..i + 1][..i] == allocations[..i];
      files := SetFile(files, allocations[i].kind, allocations[i].sha256);
    }
    assert allocations[..|allocations|] == allocations;
    hash := h.digest(HashInput(ChainOf(r), entries, files));
  }

  /** Gathers the approved gentxs and allocation files, sorts each, and hashes the result. */
  method Assemble(h: Hashing, r: ChainRecord, rows: seq<JoinRow>, files: seq<AllocationFile>)
    returns (gentxs: seq<JoinRow>, allocations: seq<AllocationFile>, hash: Hash)
    ensures multiset(gentxs) == multiset(ApprovedRows(rows)) && SortedBy(gentxs, OperatorKey())
    ensures multiset(allocations) == multiset(ApprovedFiles(files)) && SortedBy(allocations, KindKey())
    ensures hash == Fingerprint(h, r, rows, files)
  {
    gentxs := Sort(ApprovedRows(rows), OperatorKey());
    SortResult(ApprovedRows(rows), OperatorKey());
    var approved: seq<AllocationFile> := [];
    for i := 0 to |files|
      invariant approved == ApprovedFiles(files[..i])
    {
      assert files[..i + 1][..i] == files[..i];
      if files[i].status == AllocationApproved {
        approved := approved + [files[i]];
      }
    }
    assert files[..|files|] == files;
    allocations := Sort(approved, KindKey());
    SortResult(ApprovedFiles(files), KindKey());
    hash := ComputeInputSetHash(h, r, gentxs, allocations);
  }

  // ----- What the fingerprint identifies

  /** The approved hash of a type, read off the unsorted list. */
  function ApprovedHash(files: seq<AllocationFile>, kind: AllocationType): Option<Hash> {
    var i := FileIndex(files, kind);
    if i < |files| && files[i].status == AllocationApproved then Some(files[i].sha256) else None
  }

  /** Equal in every hashed field: all but the gentx deadline, and the genesis time to the second. */
  ghost predicate SameChain(a: ChainRecord, b: ChainRecord) {
    && a.(genesisTime := None, gentxDeadline := 0) == b.(genesisTime := None, gentxDeadline := 0)
    && match (a.genesisTime, b.genesisTime)
       case (Some(s), Some(t)) => s / SECOND == t / SECOND
       case (None, None) => true
       case _ => false
  }

  /** What distinguishes one approved gentx from another. */
  ghost function GentxSet(rows: seq<JoinRow>): set<(Account, string, string)> {
    set r | r in ApprovedRows(rows) :: (r.operator, r.consensusKey, r.gentx)
  }

  lemma ApprovedFileMembers(files: seq<AllocationFile>, f: AllocationFile)
    ensures f in ApprovedFiles(files) <==> f in files && f.status == AllocationApproved
  {
    if files != [] {
      var n := |files| - 1;
      ApprovedFileMembers(files[..n], f);
      assert files == files[..n] + [files[n]];
    }
  }

  lemma {:induction false} ApprovedFilesUnique(files: seq<AllocationFile>)
    requires OneFilePerType(files)
    ensures OneFilePerType(ApprovedFiles(files))
  {
    if files != [] {
      var n := |files| - 1;
      ApprovedFilesUnique(files[..n]);
      var front := ApprovedFiles(files[..n]);
      forall i | 0 <= i < |front| ensures front[i].kind != files[n].kind {
        ApprovedFileMembers(files[..n], front[i]);
      }
    }
  }

  /** Folding a list with one file per type looks each type up. */
  lemma {:induction false} FilesOfLookup(files: seq<AllocationFile>, kind: AllocationType)
    requires OneFilePerType(files)
    ensures FileOf(FilesOf(files), kind).Some? <==> exists f :: f in files && f.kind == kind
    ensures forall f :: f in files && f.kind == kind ==> FileOf(FilesOf(files), kind) == Some(f.sha256)
  {
    if files != [] {
      var n := |files| - 1;
      FilesOfLookup(files[..n], kind);
      assert files == files[..n] + [files[n]];
      forall f | f in files && f.kind == kind
        ensures FileOf(FilesOf(files), kind) == Some(f.sha256)
      {
        var i :| 0 <= i < |files| && files[i] == f;
        if i < n {
          assert files[..n][i] == f;
        }
      }
    }
  }

  /** The sorted approved files. */
  function SortedFiles(files: seq<AllocationFile>): seq<AllocationFile> {
    Sort(ApprovedFiles(files), KindKey())
  }

  lemma SortedFilesMembers(files: seq<AllocationFile>, f: AllocationFile)
    ensures f in SortedFiles(files) <==> f in files && f.status == AllocationApproved
  {
    SortResult(ApprovedFiles(files), KindKey());
    assert f in multiset(SortedFiles(files)) <==> f in multiset(ApprovedFiles(files));
    ApprovedFileMembers(files, f);
  }

  lemma SortedFilesUnique(files: seq<AllocationFile>)
    requires OneFilePerType(files)
    ensures OneFilePerType(SortedFiles(files))
  {
    var approved, sorted := ApprovedFiles(files), SortedFiles(files);
    ApprovedFilesUnique(files);
    SortResult(approved, KindKey());
    forall i, j | 0 <= i < j < |approved| ensures KindKey()(approved[i]) != KindKey()(approved[j]) {
      KindNameInjective(approved[i].kind, approved[j].kind);
    }
    DistinctByPermutation(sorted, approved, KindKey());
    forall i, j | 0 <= i < j < |sorted| ensures sorted[i].kind != sorted[j].kind {
      assert KindKey()(sorted[i]) != KindKey()(sorted[j]);
    }
  }

  lemma KindNameInjective(a: AllocationType, b: AllocationType)
    ensures KindName(a) == KindName(b) <==> a == b
  {
    assert |"accounts"| == 8 && |"claims"| == |"grants"| == 6 && |"authz"| == 5 && |"feegrant"| == 8;
    assert "accounts"[0] != "feegrant"[0] && "claims"[0] != "grants"[0];
  }

  lemma SortedFilesLookup(files: seq<AllocationFile>, kind: AllocationType)
    requires OneFilePerType(files)
    ensures FileOf(FilesOf(SortedFiles(files)), kind) == ApprovedHash(files, kind)
  {
    var sorted := SortedFiles(files);
    SortedFilesUnique(files);
    FilesOfLookup(sorted, kind);
    var i := FileIndex(files, kind);
    if i < |files| {
      SortedFilesMembers(files, files[i]);
    }
    forall f | f in sorted && f.kind == kind ensures i < |files| && f == files[i] {
      SortedFilesMembers(files, f);
      var k :| 0 <= k < |files| && files[k] == f;
    }
  }

  lemma FilesExtensional(a: HashFiles, b: HashFiles)
    ensures a == b <==> forall k :: FileOf(a, k) == FileOf(b, k)
  {
    if forall k :: FileOf(a, k) == FileOf(b, k) {
      assert FileOf(a, Accounts) == FileOf(b, Accounts);
      assert FileOf(a, Claims) == FileOf(b, Claims);
      assert FileOf(a, Grants) == FileOf(b, Grants);
      assert FileOf(a, Authz) == FileOf(b, Authz);
      assert FileOf(a, Feegrant) == FileOf(b, Feegrant);
    }
  }

  lemma FilesPartIff(a: seq<AllocationFile>, b: seq<AllocationFile>)
    requires OneFilePerType(a) && OneFilePerType(b)
    ensures FilesOf(SortedFiles(a)) == FilesOf(SortedFiles(b))
            <==> forall k :: ApprovedHash(a, k) == ApprovedHash(b, k)
  {
    var fa, fb := FilesOf(SortedFiles(a)), FilesOf(SortedFiles(b));
    forall k ensures FileOf(fa, k) == ApprovedHash(a, k) && FileOf(fb, k) == ApprovedHash(b, k) {
      SortedFilesLookup(a, k);
      SortedFilesLookup(b, k);
    }
    FilesExtensional(fa, fb);
  }

  /** The hashed entries of the approved rows, before sorting. */
  ghost function Entries(h: Hashing, rows: seq<JoinRow>): seq<HashGentx> {
    EntriesOf(h, ApprovedRows(rows))
  }

  function EntryKey(): HashGentx -> string {
    (e: HashGentx) => e.operator
  }

  /** The gentx part of the input set is the sorted arrangement of the entries. */
  lemma GentxPart(h: Hashing, rows: seq<JoinRow>)
    requires DistinctOperators(ApprovedRows(rows))
    ensures var g := EntriesOf(h, Sort(ApprovedRows(rows), OperatorKey()));
            multiset(g) == multiset(Entries(h, rows)) && SortedBy(g, EntryKey()) && DistinctBy(g, EntryKey())
  {
    var approved := ApprovedRows(rows);
    var sorted := Sort(approved, OperatorKey());
    var g := EntriesOf(h, sorted);
    SortResult(approved, OperatorKey());
    ImageMultiset(sorted, approved, (x: JoinRow) => EntryOf(h, x));
    assert DistinctBy(approved, OperatorKey());
    DistinctByPermutation(sorted, approved, OperatorKey());
    forall i, j | 0 <= i < j < |g|
      ensures !LexLess(EntryKey()(g[j]), EntryKey()(g[i])) && EntryKey()(g[i]) != EntryKey()(g[j])
    {
      assert EntryKey()(g[i]) == OperatorKey()(sorted[i]);
      assert EntryKey()(g[j]) == OperatorKey()(sorted[j]);
    }
  }

  lemma EntriesDistinct(h: Hashing, rows: seq<JoinRow>)
    requires DistinctOperators(ApprovedRows(rows))
    ensures Distinct(Entries(h, rows))
    ensures Elements(Entries(h, rows)) == set t | t in GentxSet(rows) :: HashGentx(t.0, t.1, h.gentxDigest(t.2))
  {
    var approved, es := ApprovedRows(rows), Entries(h, rows);
    forall i, j | 0 <= i < j < |es| ensures es[i] != es[j] {
      assert es[i].operator == approved[i].operator && es[j].operator == approved[j].operator;
    }
    var out := set t | t in GentxSet(rows) :: HashGentx(t.0, t.1, h.gentxDigest(t.2));
    forall e ensures e in es <==> e in out {
      if e in es {
        var i :| 0 <= i < |es| && es[i] == e;
        assert (approved[i].operator, approved[i].consensusKey, approved[i].gentx) in GentxSet(rows);
      }
      if e in out {
        var t :| t in GentxSet(rows) && e == HashGentx(t.0, t.1, h.gentxDigest(t.2));
        var r :| r in approved && t == (r.operator, r.consensusKey, r.gentx);
        var i :| 0 <= i < |approved| && approved[i] == r;
        assert es[i] == e;
      }
    }
  }

  /** The sorted gentx parts agree iff the approved sets of (operator, key, gentx) do. */
  lemma GentxPartIff(h: Hashing, a: seq<JoinRow>, b: seq<JoinRow>)
    requires CollisionFree(h)
    requires DistinctOperators(ApprovedRows(a)) && DistinctOperators(ApprovedRows(b))
    ensures EntriesOf(h, Sort(ApprovedRows(a), OperatorKey()))
            == EntriesOf(h, Sort(ApprovedRows(b), OperatorKey()))
            <==> GentxSet(a) == GentxSet(b)
  {
    var ga := EntriesOf(h, Sort(ApprovedRows(a), OperatorKey()));
    var gb := EntriesOf(h, Sort(ApprovedRows(b), OperatorKey()));
    GentxPart(h, a);
    GentxPart(h, b);
    EntriesDistinct(h, a);
    EntriesDistinct(h, b);
    DistinctMultiset(Entries(h, a));
    DistinctMultiset(Entries(h, b));
    if GentxSet(a) == GentxSet(b) {
      SortedUnique(ga, gb, EntryKey());
    }
    if ga == gb {
      SetsFromElements(h, a, b);
    }
  }

  lemma SetsFromElements(h: Hashing, a: seq<JoinRow>, b: seq<JoinRow>)
    requires CollisionFree(h)
    requires DistinctOperators(ApprovedRows(a)) && DistinctOperators(ApprovedRows(b))
    requires multiset(Entries(h, a)) == multiset(Entries(h, b))
    ensures GentxSet(a) == GentxSet(b)
  {
    SubsetFromElements(h, a, b);
    SubsetFromElements(h, b, a);
  }

  lemma SubsetFromElements(h: Hashing, a: seq<JoinRow>, b: seq<JoinRow>)
    requires CollisionFree(h)
    requires multiset(Entries(h, a)) == multiset(Entries(h, b))
    ensures GentxSet(a) <= GentxSet(b)
  {
    var xs, ys := ApprovedRows(a), ApprovedRows(b);
    forall t | t in GentxSet(a) ensures t in GentxSet(b) {
      var r :| r in xs && t == (r.operator, r.consensusKey, r.gentx);
      var i :| 0 <= i < |xs| && xs[i] == r;
      assert Entries(h, a)[i] in multiset(Entries(h, b));
      var j :| 0 <= j < |Entries(h, b)| && Entries(h, b)[j] == Entries(h, a)[i];
      assert ys[j] in ys;
    }
  }

  /**
   * Two fingerprints are equal iff the hashed chain fields, the set of (operator, key, gentx) and the
   * approved hash of every allocation type are equal. Storage order does not appear.
   */
  lemma FingerprintIff(h: Hashing, r1: ChainRecord, rows1: seq<JoinRow>, files1: seq<AllocationFile>,
                       r2: ChainRecord, rows2: seq<JoinRow>, files2: seq<AllocationFile>)
    requires CollisionFree(h)
    requires DistinctOperators(ApprovedRows(rows1)) && DistinctOperators(ApprovedRows(rows2))
    requires OneFilePerType(files1) && OneFilePerType(files2)
    ensures Fingerprint(h, r1, rows1, files1) == Fingerprint(h, r2, rows2, files2)
            <==> && SameChain(r1, r2)
                 && GentxSet(rows1) == GentxSet(rows2)
                 && forall k :: ApprovedHash(files1, k) == ApprovedHash(files2, k)
  {
    GentxPartIff(h, rows1, rows2);
    FilesPartIff(files1, files2);
    assert ChainOf(r1) == ChainOf(r2) <==> SameChain(r1, r2);
  }

  function Keys(rows: seq<JoinRow>): seq<string> {
    Image(rows, (r: JoinRow) => r.consensusKey)
  }

  /** Equal fingerprints mean the same approved consensus keys. */
  lemma FingerprintFixesKeys(h: Hashing, r1: ChainRecord, rows1: seq<JoinRow>, files1: seq<AllocationFile>,
                             r2: ChainRecord, rows2: seq<JoinRow>, files2: seq<AllocationFile>)
    requires CollisionFree(h)
    requires DistinctOperators(ApprovedRows(rows1)) && DistinctOperators(ApprovedRows(rows2))
    requires Fingerprint(h, r1, rows1, files1) == Fingerprint(h, r2, rows2, files2)
    ensures multiset(Keys(ApprovedRows(rows1))) == multiset(Keys(ApprovedRows(rows2)))
  {
    GentxPart(h, rows1);
    GentxPart(h, rows2);
    var keyOf := (e: HashGentx) => e.consensusKey;
    ImageMultiset(Entries(h, rows1), Entries(h, rows2), keyOf);
    assert Image(Entries(h, rows1), keyOf) == Keys(ApprovedRows(rows1));
    assert Image(Entries(h, rows2), keyOf) == Keys(ApprovedRows(rows2));
  }
}
