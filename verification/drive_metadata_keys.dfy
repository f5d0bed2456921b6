/** The pure side of the Drive metadata store of the sync file system: the
    leveldb key strings it builds and splits, the status codes it reports, and
    the database-version decision taken when an existing database is opened. */
module DriveMetadataKeys {
  import opened Strings
  import opened Wrappers

  /** An origin is kept as its URL spec text; a file path as its UTF-8 text. */
  type Origin = string
  type FilePath = string
  type ResourceId = string

  const DatabaseVersionKey: string := "VERSION"
  const CurrentDatabaseVersion: int := 2
  const ChangeStampKey: string := "CHANGE_STAMP"
  const SyncRootDirectoryKey: string := "SYNC_ROOT_DIR"
  const DriveMetadataKeyPrefix: string := "METADATA: "
  const MetadataKeySeparator: char := ' '
  const IncrementalSyncOriginKeyPrefix: string := "ISYNC_ORIGIN: "
  const DisabledOriginKeyPrefix: string := "DISABLED_ORIGIN: "

  /** The status codes the store hands back (a subset of SyncStatusCode). */
  datatype SyncStatusCode =
    | StatusOk
    | StatusUnknown
    | DatabaseErrorNotFound
    | DatabaseErrorFailed
    | DatabaseErrorCorruption
    | DatabaseErrorIoError
    | OtherStatus(code: int)

  datatype OriginSyncType = IncrementalSyncOrigin | DisabledOrigin

  function RemovePrefix(str: string, prefix: string): (r: string)
    ensures StartsWith(str, prefix) ==> str == prefix + r
    ensures !StartsWith(str, prefix) ==> r == str
  {
    if StartsWith(str, prefix) then str[|prefix|..] else str
  }

  /** "METADATA: " + origin + " " + path. */
  function OriginAndPathToMetadataKey(origin: Origin, path: FilePath): (key: string)
    ensures StartsWith(key, DriveMetadataKeyPrefix)
    ensures RemovePrefix(key, DriveMetadataKeyPrefix) == origin + [MetadataKeySeparator] + path
  {
    var key := DriveMetadataKeyPrefix + origin + [MetadataKeySeparator] + path;
    assert key[..|DriveMetadataKeyPrefix|] == DriveMetadataKeyPrefix;
    assert key[|DriveMetadataKeyPrefix|..] == origin + [MetadataKeySeparator] + path;
    key
  }

  /** Splits a metadata key at the FIRST separator after the prefix. When the
      body has no separator, find() answers npos and npos + 1 wraps to 0, so
      both the origin and the path are the whole body. */
  function MetadataKeyToOriginAndPath(key: string): (r: (Origin, FilePath))
    ensures var body := RemovePrefix(key, DriveMetadataKeyPrefix);
      if MetadataKeySeparator in body
      then body == r.0 + [MetadataKeySeparator] + r.1 && MetadataKeySeparator !in r.0
      else r.0 == body && r.1 == body
  {
    var body := RemovePrefix(key, DriveMetadataKeyPrefix);
    var sep := IndexOf(body, MetadataKeySeparator);
    if sep == |body| then (body, body)
    else
      assert body == body[..sep] + [MetadataKeySeparator] + body[sep + 1..];
      (body[..sep], body[sep + 1..])
  }

  /** Splitting a key built from an origin without a space gives the origin and
      path back, even when the path holds spaces. */
  lemma MetadataKeyRoundTrip(origin: Origin, path: FilePath)
    requires MetadataKeySeparator !in origin
    ensures MetadataKeyToOriginAndPath(OriginAndPathToMetadataKey(origin, path)) == (origin, path)
  {
    var body := origin + [MetadataKeySeparator] + path;
    var r := MetadataKeyToOriginAndPath(OriginAndPathToMetadataKey(origin, path));
    assert body[|origin|] == MetadataKeySeparator;
    assert MetadataKeySeparator in body;
    assert body == r.0 + [MetadataKeySeparator] + r.1;
    SplitAtFirst(origin, path, r.0, r.1, MetadataKeySeparator);
  }

  /** Two ways of writing a string around its first occurrence of `c` agree. */
  lemma SplitAtFirst(a: string, b: string, c1: string, d: string, c: char)
    requires c !in a && c !in c1
    requires a + [c] + b == c1 + [c] + d
    ensures a == c1 && b == d
  {
    var s := a + [c] + b;
    assert |a| == |c1| by {
      assert s[|a|] == c && s[|c1|] == c;
    }
    assert a == s[..|a|] == c1;
    assert b == s[|a| + 1..] == d;
  }

  /** A space in the origin moves the split: the origin comes back truncated. */
  lemma MetadataKeySpaceInOrigin()
    ensures MetadataKeyToOriginAndPath(OriginAndPathToMetadataKey("a b", "p")) == ("a", "b p")
  {
    var body := "a b" + [MetadataKeySeparator] + "p";
    assert RemovePrefix(OriginAndPathToMetadataKey("a b", "p"), DriveMetadataKeyPrefix) == body;
    assert body == "a b p";
    assert IndexOf(body, MetadataKeySeparator) == 1;
    assert body[..1] == "a" && body[2..] == "b p";
  }

  function OriginRootKeyPrefix(syncType: OriginSyncType): string
  {
    match syncType
    case IncrementalSyncOrigin => IncrementalSyncOriginKeyPrefix
    case DisabledOrigin => DisabledOriginKeyPrefix
  }

  /** The key under which an origin's root directory id is stored. */
  function CreateKeyForOriginRoot(origin: Origin, syncType: OriginSyncType): (key: string)
    ensures StartsWith(key, OriginRootKeyPrefix(syncType))
    ensures RemovePrefix(key, OriginRootKeyPrefix(syncType)) == origin
  {
    var prefix := OriginRootKeyPrefix(syncType);
    var key := prefix + origin;
    assert key[..|prefix|] == prefix && key[|prefix|..] == origin;
    key
  }

  /** The three key families never collide: an incremental-origin key, a
      disabled-origin key and a metadata key differ whatever their contents. */
  lemma KeyFamiliesDisjoint(o1: Origin, o2: Origin, o3: Origin, path: FilePath)
    ensures CreateKeyForOriginRoot(o1, IncrementalSyncOrigin) != CreateKeyForOriginRoot(o2, DisabledOrigin)
    ensures CreateKeyForOriginRoot(o1, IncrementalSyncOrigin) != OriginAndPathToMetadataKey(o3, path)
    ensures CreateKeyForOriginRoot(o2, DisabledOrigin) != OriginAndPathToMetadataKey(o3, path)
  {
    assert CreateKeyForOriginRoot(o1, IncrementalSyncOrigin)[0] == 'I';
    assert CreateKeyForOriginRoot(o2, DisabledOrigin)[0] == 'D';
    assert OriginAndPathToMetadataKey(o3, path)[0] == 'M';
  }

  /** Keys of one family are equal only for the same origin. */
  lemma OriginRootKeyInjective(o1: Origin, o2: Origin, syncType: OriginSyncType)
    requires CreateKeyForOriginRoot(o1, syncType) == CreateKeyForOriginRoot(o2, syncType)
    ensures o1 == o2
  {
    assert o1 == RemovePrefix(CreateKeyForOriginRoot(o1, syncType), OriginRootKeyPrefix(syncType));
  }

  // ---------------------------------------------------------------------------
  // Database version decision

  function DigitValue(c: char): int { c as int - '0' as int }

  predicate AllDigits(s: string) { forall k :: 0 <= k < |s| ==> '0' <= s[k] <= '9' }

  /** Value of a string of decimal digits. */
  function DecimalValue(s: string): (v: nat)
    requires AllDigits(s)
  {
    if s == [] then 0 else 10 * DecimalValue(s[..|s| - 1]) + DigitValue(s[|s| - 1])
  }

  const Int64Min: int := -0x8000_0000_0000_0000
  const Int64Max: int := 0x7FFF_FFFF_FFFF_FFFF

  /** base::StringToInt64: an optional sign followed by at least one digit,
      nothing else (no whitespace), and a value that fits in 64 bits. */
  function StringToInt64(s: string): (r: Option<int>)
    ensures r.Some? ==> Int64Min <= r.value <= Int64Max
    ensures s == [] ==> r == None
    ensures r.Some? && s[0] != '-' ==> r.value >= 0
  {
    var negative := s != [] && s[0] == '-';
    var digits := if s != [] && (s[0] == '-' || s[0] == '+') then s[1..] else s;
    if digits == [] || !AllDigits(digits) then None
    else
      var magnitude: int := DecimalValue(digits);
      var v := if negative then -magnitude else magnitude;
      if Int64Min <= v <= Int64Max then Some(v) else None
  }

  /** base::Int64ToString: a '-' for negative values, then the decimal digits. */
  function Int64ToString(x: int): (r: string)
    ensures r != []
  {
    if x < 0 then "-" + NatToString(-x) else NatToString(x)
  }

  lemma {:induction false} DecimalValueOfNatToString(n: nat)
    ensures AllDigits(NatToString(n))
    ensures DecimalValue(NatToString(n)) == n
  {
    var s := NatToString(n);
    if n >= 10 {
      DecimalValueOfNatToString(n / 10);
      assert s[..|s| - 1] == NatToString(n / 10);
    }
  }

  /** The change stamp and version values read back as they were written:
      parsing the text of any 64-bit value gives that value. */
  lemma Int64StringRoundTrip(x: int)
    requires Int64Min <= x <= Int64Max
    ensures StringToInt64(Int64ToString(x)) == Some(x)
  {
    var s := Int64ToString(x);
    if x < 0 {
      var digits := NatToString(-x);
      DecimalValueOfNatToString(-x);
      assert s == "-" + digits;
      assert s[0] == '-' && s[1..] == digits;
    } else {
      DecimalValueOfNatToString(x);
      assert s[0] != '-' && s[0] != '+';
    }
  }

  datatype MigrationStep = MigrateV0ToV1 | MigrateV1ToV2

  datatype MigrationOutcome = MigrationOutcome(status: SyncStatusCode, steps: seq<MigrationStep>)

  /** DriveMetadataDB::MigrateDatabaseIfNeeded given the stored value of the
      VERSION key (None when the key is absent): which migrations run and what
      status comes back. */
  function MigrateDatabaseIfNeeded(storedVersion: Option<string>): (r: MigrationOutcome)
    ensures storedVersion == None ==> r == MigrationOutcome(StatusOk, [MigrateV0ToV1, MigrateV1ToV2])
    ensures storedVersion.Some? ==>
      var v := StringToInt64(storedVersion.value);
      && (v == None ==> r == MigrationOutcome(DatabaseErrorFailed, []))
      && (v == Some(0) ==> r == MigrationOutcome(StatusOk, [MigrateV0ToV1, MigrateV1ToV2]))
      && (v == Some(1) ==> r == MigrationOutcome(StatusOk, [MigrateV1ToV2]))
      && (v == Some(CurrentDatabaseVersion) ==> r == MigrationOutcome(StatusOk, []))
      && (v.Some? && (v.value > CurrentDatabaseVersion || v.value < 0) ==> r == MigrationOutcome(DatabaseErrorFailed, []))
    ensures r.status == StatusOk || (r.status == DatabaseErrorFailed && r.steps == [])
  {
    var version: Option<int> :=
      if storedVersion == None then Some(0) else StringToInt64(storedVersion.value);
    match version
    case None => MigrationOutcome(DatabaseErrorFailed, [])
    case Some(v) =>
      if v > CurrentDatabaseVersion then MigrationOutcome(DatabaseErrorFailed, [])
      else if v == CurrentDatabaseVersion then MigrationOutcome(StatusOk, [])
      else if v == 0 then MigrationOutcome(StatusOk, [MigrateV0ToV1, MigrateV1ToV2])
      else if v == 1 then MigrationOutcome(StatusOk, [MigrateV1ToV2])
      else MigrationOutcome(DatabaseErrorFailed, [])
  }

  /** A migration that succeeds always ends at the current version: the steps
      taken are exactly the ones from the stored version up to version 2. */
  lemma MigrationReachesCurrentVersion(storedVersion: Option<string>)
    requires MigrateDatabaseIfNeeded(storedVersion).status == StatusOk
    ensures var from := if storedVersion == None then 0 else StringToInt64(storedVersion.value).value;
      && 0 <= from <= CurrentDatabaseVersion
      && |MigrateDatabaseIfNeeded(storedVersion).steps| == CurrentDatabaseVersion - from
  {
  }

  /** The textual forms used by the store's tests: "2" needs nothing, "1" one
      step, "3" and "x" fail, "-1" falls to the switch's default and fails. */
  lemma MigrationExamples()
    ensures MigrateDatabaseIfNeeded(Some("2")) == MigrationOutcome(StatusOk, [])
    ensures MigrateDatabaseIfNeeded(Some("1")) == MigrationOutcome(StatusOk, [MigrateV1ToV2])
    ensures MigrateDatabaseIfNeeded(Some("3")).status == DatabaseErrorFailed
    ensures MigrateDatabaseIfNeeded(Some("x")).status == DatabaseErrorFailed
    ensures MigrateDatabaseIfNeeded(Some("-1")).status == DatabaseErrorFailed
  {
    assert DecimalValue("2") == 2 by { assert "2"[..0] == []; }
    assert DecimalValue("1") == 1 by { assert "1"[..0] == []; }
    assert DecimalValue("3") == 3 by { assert "3"[..0] == []; }
    assert "-1"[1..] == "1";
  }

  // ---------------------------------------------------------------------------
  // Database status

  /** DriveMetadataStore::UpdateDBStatus: a healthy store (OK or NOT_FOUND)
      turns OK whatever is reported; a broken one takes the reported status. */
  function NextDBStatus(current: SyncStatusCode, reported: SyncStatusCode): (r: SyncStatusCode)
    ensures current == StatusOk || current == DatabaseErrorNotFound ==> r == StatusOk
    ensures current != StatusOk && current != DatabaseErrorNotFound ==> r == reported
  {
    if current != StatusOk && current != DatabaseErrorNotFound then reported else StatusOk
  }

  /** Status after a series of write completions, oldest first. */
  function StatusAfter(current: SyncStatusCode, reports: seq<SyncStatusCode>): SyncStatusCode
    decreases |reports|
  {
    if reports == [] then current else StatusAfter(NextDBStatus(current, reports[0]), reports[1..])
  }

  /** Once healthy, the store stays OK whatever the writes report: the status
      is sticky and errors after an OK are never recorded. */
  lemma {:induction false} HealthyStatusIsSticky(current: SyncStatusCode, reports: seq<SyncStatusCode>)
    requires current == StatusOk || current == DatabaseErrorNotFound
    requires reports != []
    ensures StatusAfter(current, reports) == StatusOk
    decreases |reports|
  {
    if |reports| > 1 {
      HealthyStatusIsSticky(StatusOk, reports[1..]);
    }
  }

  /** From a broken status, the store is healthy again exactly when some
      reported status was OK or NOT_FOUND. */
  lemma {:induction false} BrokenStatusRecovery(current: SyncStatusCode, reports: seq<SyncStatusCode>)
    requires current != StatusOk && current != DatabaseErrorNotFound
    requires reports != []
    ensures StatusAfter(current, reports) == StatusOk
      <==> (|| (exists k :: 0 <= k < |reports| - 1 && (reports[k] == StatusOk || reports[k] == DatabaseErrorNotFound))
            || reports[|reports| - 1] == StatusOk)
    ensures StatusAfter(current, reports) != StatusOk ==> StatusAfter(current, reports) == reports[|reports| - 1]
    decreases |reports|
  {
    var next := NextDBStatus(current, reports[0]);
    if |reports| == 1 {
    } else if next == StatusOk || next == DatabaseErrorNotFound {
      HealthyStatusIsSticky(next, reports[1..]);
    } else {
      BrokenStatusRecovery(next, reports[1..]);
      assert forall k :: 0 <= k < |reports| - 2 ==> reports[1..][k] == reports[k + 1];
    }
  }
}
