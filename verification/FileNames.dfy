/**
 The names under which the record store keeps its files: the hexadecimal workload key,
 and record, lock and temporary names, which never collide.
 */
module FileNames {
  import opened Outcomes
  import opened LifecycleRecords
  import opened RecordStores

  const TEMP_PREFIX := ".ores-lifecycle-"
  const TEMP_SUFFIX := ".tmp"
  const LOCK_SUFFIX := ".lock"
  const RECORD_SUFFIX := ".json"

  // ----- Hexadecimal keys

  function HexDigit(n: nat): (c: char)
    requires n < 16
    ensures LowerHexDigit(c)
  {
    if n < 10 then '0' + n as char else 'a' + (n - 10) as char
  }

  function HexValue(c: char): (n: nat)
    requires LowerHexDigit(c)
    ensures n < 16
  {
    if '0' <= c <= '9' then (c - '0') as nat else (c - 'a') as nat + 10
  }

  function HexKey(id: string): (key: string)
    requires forall i | 0 <= i < |id| :: id[i] < '\U{100}'
    ensures |key| == 2 * |id|
    ensures forall i | 0 <= i < |key| :: LowerHexDigit(key[i])
  {
    if |id| == 0 then "" else [HexDigit(id[0] as nat / 16), HexDigit(id[0] as nat % 16)] + HexKey(id[1..])
  }

  /** The workload id a key was made from. */
  function FromHexKey(key: string): string
    requires |key| % 2 == 0 && forall i | 0 <= i < |key| :: LowerHexDigit(key[i])
  {
    if |key| == 0 then ""
    else [(16 * HexValue(key[0]) + HexValue(key[1])) as char] + FromHexKey(key[2..])
  }

  lemma HexDigitRoundTrip(n: nat)
    requires n < 16
    ensures HexValue(HexDigit(n)) == n
  {
  }

  lemma {:induction false} HexKeyRoundTrip(id: string)
    requires forall i | 0 <= i < |id| :: id[i] < '\U{100}'
    ensures FromHexKey(HexKey(id)) == id
  {
    if |id| > 0 {
      HexKeyRoundTrip(id[1..]);
      var b := id[0] as nat;
      HexDigitRoundTrip(b / 16);
      HexDigitRoundTrip(b % 16);
      var key := HexKey(id);
      assert key[2..] == HexKey(id[1..]);
      assert [id[0]] + id[1..] == id;
    }
  }

  /** `workload_file_key`. */
  function WorkloadFileKey(id: string): (r: Result<string, StoreError>)
    ensures r.Ok? <==> ValidIdentity(id)
    ensures r.Ok? ==> |r.value| == 2 * |id| && forall i | 0 <= i < |r.value| :: LowerHexDigit(r.value[i])
  {
    if ValidIdentity(id) then Ok(HexKey(id)) else Err(BadWorkloadId)
  }

  // ----- Decimal numbers

  function Decimal(n: nat): (s: string)
    ensures |s| > 0 && forall i | 0 <= i < |s| :: '0' <= s[i] <= '9'
  {
    if n < 10 then ['0' + n as char] else Decimal(n / 10) + ['0' + (n % 10) as char]
  }

  function FromDecimal(s: string): nat
    requires forall i | 0 <= i < |s| :: '0' <= s[i] <= '9'
  {
    if |s| == 0 then 0 else 10 * FromDecimal(s[..|s| - 1]) + (s[|s| - 1] - '0') as nat
  }

  lemma {:induction false} DecimalRoundTrip(n: nat)
    ensures FromDecimal(Decimal(n)) == n
  {
    if n < 10 {
      assert Decimal(n)[..0] == "";
    } else {
      DecimalRoundTrip(n / 10);
      var s := Decimal(n);
      assert s[..|s| - 1] == Decimal(n / 10);
    }
  }

  // ----- Names

  /** The name on disk of a file of a valid workload. */
  function Name(e: FileName): string
    requires ValidIdentity(e.workload)
  {
    var key := WorkloadFileKey(e.workload).value;
    match e
    case RecordFile(_) => key + RECORD_SUFFIX
    case LockFile(_) => key + LOCK_SUFFIX
    case TempFile(_, revision, pid, nonce) =>
      TEMP_PREFIX + (key + "-" + (Decimal(revision) + "-" + (Decimal(pid) + "-" + (Decimal(nonce) + TEMP_SUFFIX))))
  }

  /** What the sweep takes for a temporary file. */
  predicate LooksTemporary(name: string) {
    TEMP_PREFIX <= name && |name| >= |TEMP_SUFFIX| && name[|name| - |TEMP_SUFFIX|..] == TEMP_SUFFIX
  }

  /** Two texts with the same separator after parts that lack it have the same parts. */
  lemma SplitIsUnique(a: string, b: string, x: string, y: string, separator: char)
    requires a + [separator] + x == b + [separator] + y
    requires separator !in a && separator !in b
    ensures a == b && x == y
  {
    var s, t := a + [separator] + x, b + [separator] + y;
    assert s[|a|] == separator && t[|b|] == separator;
    assert s[..|a|] == a && t[..|a|] == b;
    assert s[|a| + 1..] == x && t[|a| + 1..] == y;
  }

  lemma {:induction false} KeyIsInjective(v: string, w: string)
    requires ValidIdentity(v) && ValidIdentity(w) && HexKey(v) == HexKey(w)
    ensures v == w
  {
    HexKeyRoundTrip(v);
    HexKeyRoundTrip(w);
  }

  lemma {:induction false} DecimalIsInjective(m: nat, n: nat)
    requires Decimal(m) == Decimal(n)
    ensures m == n
  {
    DecimalRoundTrip(m);
    DecimalRoundTrip(n);
  }

  /** Record and lock names end their key at the first dot; distinct workloads or kinds differ. */
  lemma PlainNamesDiffer(a: FileName, b: FileName)
    requires ValidIdentity(a.workload) && ValidIdentity(b.workload) && !a.TempFile? && !b.TempFile?
    requires Name(a) == Name(b)
    ensures a == b
  {
    hide Name, HexKey;
    PlainName(a);
    PlainName(b);
    SplitIsUnique(HexKey(a.workload), HexKey(b.workload), Extension(a), Extension(b), '.');
    KeyIsInjective(a.workload, b.workload);
    assert Extension(a)[0] == Extension(b)[0];
  }

  function Extension(e: FileName): string {
    if e.RecordFile? then "json" else "lock"
  }

  lemma PlainName(e: FileName)
    requires ValidIdentity(e.workload) && !e.TempFile?
    ensures Name(e) == HexKey(e.workload) + ['.'] + Extension(e)
  {
    hide HexKey;
  }

  lemma TempNamesDiffer(a: FileName, b: FileName)
    requires a.TempFile? && b.TempFile? && ValidIdentity(a.workload) && ValidIdentity(b.workload)
    requires Name(a) == Name(b)
    ensures a == b
  {
    var p, q := Decimal(a.nonce) + TEMP_SUFFIX, Decimal(b.nonce) + TEMP_SUFFIX;
    var r, s := Decimal(a.pid) + "-" + p, Decimal(b.pid) + "-" + q;
    var t, u := Decimal(a.revision) + "-" + r, Decimal(b.revision) + "-" + s;
    var n := |TEMP_PREFIX|;
    assert Name(a)[n..] == HexKey(a.workload) + "-" + t;
    assert Name(b)[n..] == HexKey(b.workload) + "-" + u;
    SplitIsUnique(HexKey(a.workload), HexKey(b.workload), t, u, '-');
    SplitIsUnique(Decimal(a.revision), Decimal(b.revision), r, s, '-');
    SplitIsUnique(Decimal(a.pid), Decimal(b.pid), p, q, '-');
    assert p == Decimal(a.nonce) + ['.'] + "tmp" && q == Decimal(b.nonce) + ['.'] + "tmp";
    SplitIsUnique(Decimal(a.nonce), Decimal(b.nonce), "tmp", "tmp", '.');
    KeyIsInjective(a.workload, b.workload);
    DecimalIsInjective(a.revision, b.revision);
    DecimalIsInjective(a.pid, b.pid);
    DecimalIsInjective(a.nonce, b.nonce);
  }

  /** Only temporary names start with a dot, and every temporary name is swept. */
  lemma {:induction false} OnlyTemporariesAreSwept(e: FileName)
    requires ValidIdentity(e.workload)
    ensures LooksTemporary(Name(e)) <==> e.TempFile?
  {
    var name := Name(e);
    if e.TempFile? {
      assert TEMP_PREFIX <= name;
      var body := HexKey(e.workload) + "-" + (Decimal(e.revision) + "-" + (Decimal(e.pid) + "-" + Decimal(e.nonce)));
      assert name == TEMP_PREFIX + body + TEMP_SUFFIX;
    } else {
      assert name[0] == HexKey(e.workload)[0] && LowerHexDigit(name[0]);
    }
  }

  /**
   Names are injective over all entries: distinct workloads never share a record or a
   lock file, and record, lock and temporary names never collide.
   */
  lemma {:induction false} NamesNeverCollide(a: FileName, b: FileName)
    requires ValidIdentity(a.workload) && ValidIdentity(b.workload)
    ensures Name(a) == Name(b) <==> a == b
  {
    if Name(a) == Name(b) {
      OnlyTemporariesAreSwept(a);
      OnlyTemporariesAreSwept(b);
      if a.TempFile? {
        TempNamesDiffer(a, b);
      } else {
        PlainNamesDiffer(a, b);
      }
    }
  }
}
