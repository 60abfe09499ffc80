/** Finding the migrations: collectUpMigrations of internal/migrate/migrate.go. */
module MigrationFiles {
  import opened Common
  import opened Migrations

  const MAX_INT := 0x7FFF_FFFF_FFFF_FFFF
  const MIN_INT := -0x8000_0000_0000_0000
  const SUFFIX := ".up.sql"

  // Decimal numbers.

  predicate IsDigit(c: char) {
    '0' <= c <= '9'
  }

  predicate AllDigits(s: string) {
    forall i :: 0 <= i < |s| ==> IsDigit(s[i])
  }

  /** The decimal form of n. */
  function Decimal(n: nat): (s: string)
    ensures |s| > 0 && AllDigits(s) && Value(s) == n
  {
    var last := [(n % 10) as char + '0'];
    if n < 10 then last else Decimal(n / 10) + last
  }

  /** The number a string of digits stands for. */
  function Value(s: string): nat
    requires AllDigits(s)
  {
    if |s| == 0 then 0 else Value(s[..|s| - 1]) * 10 + (s[|s| - 1] as int - '0' as int)
  }

  /** The form %04d of n. */
  function Padded(n: nat): (s: string)
    ensures |s| >= 4 && AllDigits(s) && Value(s) == n
  {
    PadTo(Decimal(n), 4)
  }

  function PadTo(s: string, width: nat): (r: string)
    requires AllDigits(s)
    ensures |r| == Max(|s|, width) && AllDigits(r) && Value(r) == Value(s)
    decreases width - |s|
  {
    if |s| >= width then s
    else
      LeadingZero(s);
      PadTo("0" + s, width)
  }

  lemma {:induction false} LeadingZero(s: string)
    requires AllDigits(s)
    ensures AllDigits("0" + s) && Value("0" + s) == Value(s)
  {
    if |s| > 0 {
      LeadingZero(s[..|s| - 1]);
      assert ("0" + s)[..|s|] == "0" + s[..|s| - 1];
    }
  }

  /** strconv.Atoi: an optional sign, at least one digit, within the range of int. */
  function Atoi(s: string): (r: Option<int>)
    ensures AllDigits(s) && |s| > 0 ==> r == if Value(s) <= MAX_INT then Some(Value(s)) else None
  {
    var negative := |s| > 0 && s[0] == '-';
    var digits := if |s| > 0 && (s[0] == '-' || s[0] == '+') then s[1..] else s;
    if |digits| == 0 || !AllDigits(digits) then None
    else
      var abs: int := Value(digits);
      var n := if negative then -abs else abs;
      if MIN_INT <= n <= MAX_INT then Some(n) else None
  }

  /** s is the digits, with or without a plus sign, or a minus sign and the digits. */
  ghost predicate Spells(s: string, digits: string, n: int) {
    && |digits| > 0 && AllDigits(digits)
    && ((s == digits && n == Value(digits)) || (s == "+" + digits && n == Value(digits)) ||
        (s == "-" + digits && n == 0 - Value(digits)))
  }

  /** The text of a number in the range of int. */
  ghost predicate IsNumber(s: string, n: int) {
    MIN_INT <= n <= MAX_INT && exists digits :: Spells(s, digits, n)
  }

  lemma NumberIsRead(s: string, digits: string, n: int)
    requires Spells(s, digits, n) && MIN_INT <= n <= MAX_INT
    ensures Atoi(s) == Some(n)
  {
    assert IsDigit(digits[0]);
    if s != digits {
      assert s[1..] == digits;
    }
  }

  lemma ReadIsNumber(s: string, n: int)
    requires Atoi(s) == Some(n)
    ensures IsNumber(s, n)
  {
    var digits := if s[0] == '-' || s[0] == '+' then s[1..] else s;
    assert s == digits || s == [s[0]] + digits;
    assert Spells(s, digits, n);
  }

  lemma AtoiIff(s: string, n: int)
    ensures Atoi(s) == Some(n) <==> IsNumber(s, n)
  {
    if Atoi(s) == Some(n) {
      ReadIsNumber(s, n);
    }
    if IsNumber(s, n) {
      var digits :| Spells(s, digits, n);
      NumberIsRead(s, digits, n);
    }
  }

  // Strings.

  function Index(s: string, c: char): (r: Option<nat>)
    ensures r.Some? ==> r.value < |s| && s[r.value] == c && c !in s[..r.value]
    ensures r.None? ==> c !in s
  {
    if |s| == 0 then None
    else if s[0] == c then Some(0)
    else
      var rest := Index(s[1..], c);
      if rest.None? then None
      else
        assert s[..rest.value + 1] == [s[0]] + s[1..][..rest.value];
        Some(rest.value + 1)
  }

  predicate HasSuffix(s: string, suffix: string) {
    |s| >= |suffix| && s[|s| - |suffix|..] == suffix
  }

  function TrimSuffix(s: string, suffix: string): string {
    if HasSuffix(s, suffix) then s[..|s| - |suffix|] else s
  }

  function TrimPrefix(s: string, prefix: string): string {
    if prefix <= s then s[|prefix|..] else s
  }

  /** filepath.Base, of a path that does not end in a separator. */
  function Base(path: string): (r: string)
    ensures '/' !in r && HasSuffix(path, r)
    ensures |r| < |path| ==> path[|path| - |r| - 1] == '/'
  {
    if |path| == 0 || path[|path| - 1] == '/' then ""
    else
      var before := Base(path[..|path| - 1]);
      assert path[|path| - |before| - 1..] == path[..|path| - 1][|path| - 1 - |before|..] + [path[|path| - 1]];
      before + [path[|path| - 1]]
  }

  lemma {:induction false} BaseOfJoined(dir: string, name: string)
    requires '/' !in name
    ensures Base(dir + "/" + name) == name
  {
    var path := dir + "/" + name;
    if |name| > 0 {
      assert path[..|path| - 1] == dir + "/" + name[..|name| - 1];
      BaseOfJoined(dir, name[..|name| - 1]);
      assert name == name[..|name| - 1] + [name[|name| - 1]];
    } else {
      assert path[|path| - 1] == '/';
    }
  }

  // File names.

  datatype Parsed = Skipped | Invalid | Found(m: Migration)

  function ParseBase(base: string, path: string): Parsed {
    var idx := Index(base, '_');
    var num := if idx.Some? && idx.value > 0 then base[..idx.value] else base;
    var version := Atoi(num);
    if version.None? then Invalid
    else Found(Migration(version.value, TrimSuffix(TrimPrefix(base, num + "_"), SUFFIX), path))
  }

  /** What the walk makes of one entry of the tree. */
  function Parse(path: string, isDir: bool): Parsed {
    if isDir || !HasSuffix(path, SUFFIX) then Skipped else ParseBase(Base(path), path)
  }

  function FileName(num: string, name: string): string {
    num + "_" + name + SUFFIX
  }

  lemma {:induction false} IndexOfFirst(before: string, c: char, after: string)
    requires c !in before
    ensures Index(before + [c] + after, c) == Some(|before|)
  {
    if |before| > 0 {
      assert (before + [c] + after)[1..] == before[1..] + [c] + after;
      IndexOfFirst(before[1..], c, after);
    }
  }

  lemma SuffixOfConcat(s: string, t: string, suffix: string)
    requires HasSuffix(t, suffix)
    ensures HasSuffix(s + t, suffix)
  {
    assert (s + t)[|s + t| - |suffix|..] == t[|t| - |suffix|..];
  }

  lemma TrimOfConcat(s: string, t: string)
    ensures TrimPrefix(s + t, s) == t && TrimSuffix(s + t, t) == s && HasSuffix(s + t, t)
  {
    assert (s + t)[|s|..] == t && (s + t)[..|s|] == s;
  }

  lemma ParseOfBase(num: string, name: string, path: string)
    requires '_' !in num && |num| > 0 && Atoi(num).Some?
    ensures ParseBase(FileName(num, name), path) == Found(Migration(Atoi(num).value, name, path))
  {
    var base := FileName(num, name);
    IndexOfFirst(num, '_', name + SUFFIX);
    assert base == num + "_" + (name + SUFFIX) && base[..|num|] == num;
    TrimOfConcat(num + "_", name + SUFFIX);
    TrimOfConcat(name, SUFFIX);
  }

  lemma ParseOfName(dir: string, num: string, name: string)
    requires '_' !in num && '/' !in num && |num| > 0 && '/' !in name && Atoi(num).Some?
    ensures var path := dir + "/" + FileName(num, name);
            Parse(path, false) == Found(Migration(Atoi(num).value, name, path))
  {
    BaseOfJoined(dir, FileName(num, name));
    TrimOfConcat(num + "_" + name, SUFFIX);
    SuffixOfConcat(dir + "/", FileName(num, name), SUFFIX);
    ParseOfBase(num, name, dir + "/" + FileName(num, name));
  }

  /** The printed form of a version and a name is parsed back to them, for any name without a path
      separator, empty or with underscores, and any version, wider than four digits or not. */
  lemma FileNameRoundTrip(dir: string, version: nat, name: string)
    requires version <= MAX_INT && '/' !in name
    ensures var path := dir + "/" + FileName(Padded(version), name);
            Parse(path, false) == Found(Migration(version, name, path))
  {
    var num := Padded(version);
    assert '_' !in num && '/' !in num by {
      assert forall c :: c in num ==> IsDigit(c);
    }
    ParseOfName(dir, num, name);
  }

  lemma NotANumber(s: string)
    requires |s| > 0 && !IsDigit(s[|s| - 1])
    ensures Atoi(s).None?
  {
    var digits := if s[0] == '-' || s[0] == '+' then s[1..] else s;
    if |digits| > 0 {
      assert digits[|digits| - 1] == s[|s| - 1];
    }
  }

  /** An underscore lies before the suffix. */
  lemma SplitAtUnderscore(base: string, idx: nat)
    requires HasSuffix(base, SUFFIX) && idx < |base| && base[idx] == '_'
    ensures idx + 1 <= |base| - |SUFFIX|
    ensures base == base[..idx] + "_" + base[idx + 1..|base| - |SUFFIX|] + SUFFIX
  {
    var cut := |base| - |SUFFIX|;
    assert base == base[..cut] + SUFFIX;
    assert base[idx] == (base[..cut] + SUFFIX)[idx] && '_' !in SUFFIX;
    assert base[..cut] == base[..idx] + "_" + base[idx + 1..cut];
  }

  lemma FoundHasNumber(base: string, path: string)
    requires ParseBase(base, path).Found? && HasSuffix(base, SUFFIX)
    ensures Index(base, '_').Some? && Index(base, '_').value > 0
    ensures Atoi(base[..Index(base, '_').value]).Some?
  {
    assert base[|base| - 1] == base[|base| - |SUFFIX|..][|SUFFIX| - 1];
    NotANumber(base);
  }

  /** What is parsed is what the file name says: a version, an underscore, the name, the suffix. */
  lemma ParsedShape(base: string, path: string) returns (num: string)
    requires ParseBase(base, path).Found? && HasSuffix(base, SUFFIX)
    ensures var m := ParseBase(base, path).m;
            base == FileName(num, m.name) && Atoi(num) == Some(m.version) && m.path == path && '_' !in num
  {
    FoundHasNumber(base, path);
    var idx := Index(base, '_').value;
    num := base[..idx];
    SplitAtUnderscore(base, idx);
    ParseOfBase(num, base[idx + 1..|base| - |SUFFIX|], path);
  }

  // The walk and the sort.

  predicate ByVersion(ms: seq<Migration>) {
    forall i, j :: 0 <= i < j < |ms| ==> ms[i].version <= ms[j].version
  }

  function Insert(m: Migration, ms: seq<Migration>): (r: seq<Migration>)
    requires ByVersion(ms)
    ensures multiset(r) == multiset(ms) + multiset{m}
  {
    if |ms| == 0 || m.version <= ms[0].version then [m] + ms
    else
      assert ms == [ms[0]] + ms[1..];
      [ms[0]] + Insert(m, ms[1..])
  }

  lemma {:induction false} InsertKeepsOrder(m: Migration, ms: seq<Migration>)
    requires ByVersion(ms)
    ensures ByVersion(Insert(m, ms))
  {
    if |ms| > 0 && ms[0].version < m.version {
      var rest := Insert(m, ms[1..]);
      InsertKeepsOrder(m, ms[1..]);
      forall x | x in rest ensures ms[0].version <= x.version {
        assert x in multiset(rest);
      }
    }
  }

  /** sort.Slice is not stable; on distinct versions the order it yields is the only one. */
  function SortByVersion(ms: seq<Migration>): (r: seq<Migration>)
    ensures ByVersion(r) && multiset(r) == multiset(ms)
  {
    if |ms| == 0 then []
    else
      assert ms == [ms[0]] + ms[1..];
      InsertKeepsOrder(ms[0], SortByVersion(ms[1..]));
      Insert(ms[0], SortByVersion(ms[1..]))
  }

  datatype Item = Item(path: string, isDir: bool)

  /** An entry of the walk that the runner has to read as a migration. */
  predicate IsUpFile(item: Item) {
    !item.isDir && |item.path| >= 7 && item.path[|item.path| - 7..] == ".up.sql"
  }

  /** Their paths, in the order of the walk. */
  function UpPaths(items: seq<Item>): seq<string> {
    if |items| == 0 then []
    else
      var before, item := UpPaths(items[..|items| - 1]), items[|items| - 1];
      if IsUpFile(item) then before + [item.path] else before
  }

  /** The file name starts with a number, before its first underscore. */
  ghost predicate StartsWithNumber(base: string) {
    exists k: nat :: NumberBefore(base, k)
  }

  ghost predicate NumberBefore(base: string, k: nat) {
    k < |base| && base[k] == '_' && '_' !in base[..k] && exists n :: IsNumber(base[..k], n)
  }

  /** A migration has the version and the name that its file name states. */
  ghost predicate NamedByFile(m: Migration) {
    exists num :: States(Base(m.path), num, m.version, m.name)
  }

  ghost predicate States(base: string, num: string, version: int, name: string) {
    '_' !in num && IsNumber(num, version) && base == num + "_" + name + ".up.sql"
  }

  lemma FirstIndex(s: string, k: nat)
    requires k < |s| && s[k] == '_' && '_' !in s[..k]
    ensures Index(s, '_') == Some(k)
  {
    IndexOfFirst(s[..k], '_', s[k + 1..]);
    assert s == s[..k] + ['_'] + s[k + 1..];
  }

  lemma BaseHasSuffix(path: string)
    requires HasSuffix(path, SUFFIX)
    ensures HasSuffix(Base(path), SUFFIX)
  {
    var base, cut := Base(path), |path| - |SUFFIX|;
    forall j | cut <= j < |path| ensures path[j] != '/' {
      assert path[j] == path[cut..][j - cut];
    }
    assert |base| >= |SUFFIX|;
    assert base == path[|path| - |base|..];
    assert base[|base| - |SUFFIX|..] == path[cut..];
  }

  lemma FoundIsNamed(base: string, path: string)
    requires HasSuffix(base, SUFFIX) && base == Base(path) && ParseBase(base, path).Found?
    ensures ParseBase(base, path).m.path == path && NamedByFile(ParseBase(base, path).m)
    ensures StartsWithNumber(base)
  {
    var m := ParseBase(base, path).m;
    var num := ParsedShape(base, path);
    AtoiIff(num, m.version);
    assert States(base, num, m.version, m.name);
    StatedIsBefore(base, num, m.version, m.name);
  }

  lemma StatedIsBefore(base: string, num: string, version: int, name: string)
    requires States(base, num, version, name)
    ensures NumberBefore(base, |num|)
  {
    var rest := "_" + name + ".up.sql";
    assert base == num + rest && base[|num|] == rest[0] && base[..|num|] == num;
  }

  lemma NumberIsFound(base: string, path: string, k: nat, n: int)
    requires k < |base| && base[k] == '_' && '_' !in base[..k] && IsNumber(base[..k], n)
    ensures ParseBase(base, path).Found?
  {
    AtoiIff(base[..k], n);
    FirstIndex(base, k);
  }

  /** An entry is read as what it is: skipped, refused, or a migration named by its file. */
  lemma ParsedAsIs(item: Item)
    ensures var p := Parse(item.path, item.isDir);
            && (p.Skipped? <==> !IsUpFile(item))
            && (p.Invalid? <==> IsUpFile(item) && !StartsWithNumber(Base(item.path)))
            && (p.Found? ==> p.m.path == item.path && NamedByFile(p.m))
  {
    if IsUpFile(item) {
      var base := Base(item.path);
      BaseHasSuffix(item.path);
      if ParseBase(base, item.path).Found? {
        FoundIsNamed(base, item.path);
      } else if StartsWithNumber(base) {
        var k: nat :| NumberBefore(base, k);
        var n :| IsNumber(base[..k], n);
        NumberIsFound(base, item.path, k, n);
      }
    }
  }

  lemma SplitOnce(num: string, rest: string, num': string, rest': string)
    requires '_' !in num && '_' !in num' && num + "_" + rest == num' + "_" + rest'
    ensures num == num' && rest == rest'
  {
    IndexOfFirst(num, '_', rest);
    IndexOfFirst(num', '_', rest');
    assert num == (num + "_" + rest)[..|num|] && num' == (num' + "_" + rest')[..|num'|];
    assert rest == (num + "_" + rest)[|num| + 1..] && rest' == (num' + "_" + rest')[|num'| + 1..];
  }

  lemma TrimOnce(name: string, name': string, suffix: string)
    requires name + suffix == name' + suffix
    ensures name == name'
  {
    assert |name| + |suffix| == |name + suffix| == |name'| + |suffix|;
    assert name == (name + suffix)[..|name|] && name' == (name' + suffix)[..|name'|];
  }

  /** A path names one migration only. */
  lemma NamedOnce(m: Migration, m': Migration)
    requires NamedByFile(m) && NamedByFile(m') && m.path == m'.path
    ensures m == m'
  {
    var num :| States(Base(m.path), num, m.version, m.name);
    var num' :| States(Base(m.path), num', m'.version, m'.name);
    StatedOnce(Base(m.path), num, m, num', m');
  }

  lemma StatedOnce(base: string, num: string, m: Migration, num': string, m': Migration)
    requires States(base, num, m.version, m.name) && States(base, num', m'.version, m'.name) && m.path == m'.path
    ensures m == m'
  {
    Regroup(num, m.name);
    Regroup(num', m'.name);
    SplitOnce(num, m.name + ".up.sql", num', m'.name + ".up.sql");
    TrimOnce(m.name, m'.name, ".up.sql");
    OneValue(num, m.version, m'.version);
  }

  lemma Regroup(num: string, name: string)
    ensures num + "_" + name + ".up.sql" == num + "_" + (name + ".up.sql")
  {
  }

  lemma OneValue(num: string, n: int, n': int)
    requires IsNumber(num, n) && IsNumber(num, n')
    ensures n == n'
  {
    AtoiIff(num, n);
    AtoiIff(num, n');
  }

  /** One migration for each path, in the same order. */
  ghost predicate OneForEach(found: seq<Migration>, paths: seq<string>) {
    |found| == |paths| && forall i :: 0 <= i < |found| ==> found[i].path == paths[i] && NamedByFile(found[i])
  }

  lemma OneMore(found: seq<Migration>, paths: seq<string>, m: Migration)
    requires OneForEach(found, paths) && NamedByFile(m)
    ensures OneForEach(found + [m], paths + [m.path])
  {
  }

  ghost predicate AllNumbered(items: seq<Item>) {
    forall k :: 0 <= k < |items| && IsUpFile(items[k]) ==> StartsWithNumber(Base(items[k].path))
  }

  lemma NextItem(items: seq<Item>, i: nat)
    requires i < |items|
    ensures UpPaths(items[..i + 1]) ==
            (if IsUpFile(items[i]) then UpPaths(items[..i]) + [items[i].path] else UpPaths(items[..i]))
    ensures AllNumbered(items[..i + 1]) <==>
              AllNumbered(items[..i]) && (IsUpFile(items[i]) ==> StartsWithNumber(Base(items[i].path)))
  {
    assert items[..i + 1][..i] == items[..i];
    assert items[..i + 1] == items[..i] + [items[i]];
  }

  lemma NotNumbered(items: seq<Item>, i: nat)
    requires i < |items| && IsUpFile(items[i]) && !StartsWithNumber(Base(items[i].path))
    ensures !AllNumbered(items)
  {
  }

  /** Fails if and only if the name of some up file does not start with a number and an underscore.
      Otherwise it returns one migration for each up file, named by it, in order of version; `found` lists
      them in the order of the walk. */
  method CollectUpMigrations(items: seq<Item>) returns (r: Option<seq<Migration>>, ghost found: seq<Migration>)
    ensures r.None? <==> !AllNumbered(items)
    ensures r.Some? ==> ByVersion(r.value) && multiset(r.value) == multiset(found) && OneForEach(found, UpPaths(items))
  {
    var out := [];
    for i := 0 to |items|
      invariant AllNumbered(items[..i]) && OneForEach(out, UpPaths(items[..i]))
    {
      ParsedAsIs(items[i]);
      NextItem(items, i);
      match Parse(items[i].path, items[i].isDir)
      case Skipped =>
      case Invalid =>
        NotNumbered(items, i);
        return None, [];
      case Found(m) =>
        OneMore(out, UpPaths(items[..i]), m);
        out := out + [m];
    }
    assert items[..|items|] == items;
    r, found := Some(SortByVersion(out)), out;
  }

  predicate DistinctVersions(ms: seq<Migration>) {
    forall i, j :: 0 <= i < j < |ms| ==> ms[i].version != ms[j].version
  }

  lemma SameHead(a: seq<Migration>, b: seq<Migration>)
    requires ByVersion(a) && ByVersion(b) && multiset(a) == multiset(b) && DistinctVersions(a) && |a| > 0 && |b| > 0
    ensures a[0] == b[0]
  {
    assert a[0] in multiset(b) && b[0] in multiset(a);
    assert b[0].version <= a[0].version <= b[0].version;
  }

  lemma TailsMatch(a: seq<Migration>, b: seq<Migration>)
    requires multiset(a) == multiset(b) && |a| > 0 && |b| > 0 && a[0] == b[0]
    ensures multiset(a[1..]) == multiset(b[1..])
  {
    assert a == [a[0]] + a[1..] && b == [b[0]] + b[1..];
    assert multiset(a[1..]) == multiset(a) - multiset{a[0]};
    assert multiset(b[1..]) == multiset(b) - multiset{b[0]};
  }

  /** Files with distinct versions have one order by version, the one the runner goes through. */
  lemma {:induction false} SortIsUnique(a: seq<Migration>, b: seq<Migration>)
    requires ByVersion(a) && ByVersion(b) && multiset(a) == multiset(b) && DistinctVersions(a)
    ensures Increasing(a) && a == b
  {
    assert |a| == |multiset(a)| == |multiset(b)| == |b|;
    if |a| > 0 {
      SameHead(a, b);
      TailsMatch(a, b);
      SortIsUnique(a[1..], b[1..]);
      assert a == [a[0]] + a[1..] && b == [b[0]] + b[1..];
    }
  }
}
