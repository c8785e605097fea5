/** Object keys of the backup store: zero-padded generation numbers order as strings exactly as
    they order as numbers (internal/store/store.go). */
module Keys {
  import opened Paths
  import opened Strings

  /** Generations are 64-bit. */
  const GENERATIONS: nat := 0x1_0000_0000_0000_0000

  /** The width of a padded generation number. */
  const WIDTH: nat := 20

  /** Byte-wise string order, as sort.StringSlice uses it. */
  predicate LexLess(a: string, b: string) {
    if b == "" then false
    else if a == "" then true
    else if a[0] != b[0] then a[0] < b[0]
    else LexLess(a[1..], b[1..])
  }

  function Power10(w: nat): nat {
    if w == 0 then 1 else 10 * Power10(w - 1)
  }

  /** The last `w` decimal digits of `n`. */
  function Digits(n: nat, w: nat): (s: string)
    ensures |s| == w
  {
    if w == 0 then "" else Digits(n / 10, w - 1) + [('0' as int + n % 10) as char]
  }

  function ManifestKey(id: string, gen: nat): string {
    id + "/saves/" + Digits(gen, WIDTH) + ".json"
  }

  function ArchiveKey(id: string, gen: nat): string {
    id + "/saves/" + Digits(gen, WIDTH) + ".tar.zst"
  }

  function Prefix(id: string): string {
    id + "/saves/"
  }

  lemma {:induction false} LexPrefix(p: string, a: string, b: string)
    ensures LexLess(p + a, p + b) == LexLess(a, b)
  {
    if p == "" {
      assert p + a == a && p + b == b;
    } else {
      LexPrefix(p[1..], a, b);
      assert (p + a)[1..] == p[1..] + a && (p + b)[1..] == p[1..] + b;
    }
  }

  /** Between strings of equal length a common suffix does not matter. */
  lemma {:induction false} LexSuffix(a: string, b: string, s: string)
    requires |a| == |b|
    ensures LexLess(a + s, b + s) <==> LexLess(a, b)
  {
    if a == "" {
      assert a + s == s && b + s == s;
      LexIrreflexive(s);
    } else {
      assert (a + s)[1..] == a[1..] + s && (b + s)[1..] == b[1..] + s;
      LexSuffix(a[1..], b[1..], s);
    }
  }

  lemma {:induction false} LexIrreflexive(s: string)
    ensures !LexLess(s, s)
  {
    if s == "" {
    } else {
      LexIrreflexive(s[1..]);
    }
  }

  lemma {:induction false} LexTransitive(a: string, b: string, c: string)
    requires LexLess(a, b) && LexLess(b, c)
    ensures LexLess(a, c)
  {
    if a != "" && a[0] == b[0] && b[0] == c[0] {
      LexTransitive(a[1..], b[1..], c[1..]);
    }
  }

  lemma {:induction false} LexTotal(a: string, b: string)
    ensures a == b || LexLess(a, b) || LexLess(b, a)
    ensures !(LexLess(a, b) && LexLess(b, a))
  {
    if a != "" && b != "" && a[0] == b[0] {
      LexTotal(a[1..], b[1..]);
      assert a == [a[0]] + a[1..] && b == [b[0]] + b[1..];
    }
  }

  /** A later digit decides only between equal earlier digits. */
  lemma {:induction false} LexLastDigit(a: string, b: string, x: char, y: char)
    requires |a| == |b|
    ensures LexLess(a + [x], b + [y]) <==> LexLess(a, b) || (a == b && x < y)
  {
    if a == "" {
      assert a + [x] == [x] && b + [y] == [y];
      assert [x][1..] == "" && [y][1..] == "";
    } else {
      assert (a + [x])[1..] == a[1..] + [x] && (b + [y])[1..] == b[1..] + [y];
      LexLastDigit(a[1..], b[1..], x, y);
      assert a == [a[0]] + a[1..] && b == [b[0]] + b[1..];
    }
  }

  /** Padded numbers order as numbers and are distinct. */
  lemma {:induction false} DigitsOrder(m: nat, n: nat, w: nat)
    requires m < Power10(w) && n < Power10(w)
    ensures LexLess(Digits(m, w), Digits(n, w)) <==> m < n
    ensures Digits(m, w) == Digits(n, w) <==> m == n
  {
    if w == 0 {
    } else {
      DigitsOrder(m / 10, n / 10, w - 1);
      var x, y := ('0' as int + m % 10) as char, ('0' as int + n % 10) as char;
      LexLastDigit(Digits(m / 10, w - 1), Digits(n / 10, w - 1), x, y);
      assert m == 10 * (m / 10) + m % 10 && n == 10 * (n / 10) + n % 10;
      assert Digits(m, w)[|Digits(m, w)| - 1] == x && Digits(n, w)[|Digits(n, w)| - 1] == y;
      assert Digits(m, w)[..w - 1] == Digits(m / 10, w - 1) && Digits(n, w)[..w - 1] == Digits(n / 10, w - 1);
    }
  }

  /** Twenty digits are enough for every generation. */
  lemma TwentyDigits()
    ensures GENERATIONS <= Power10(20)
  {
    assert Power10(5) == 100_000;
    Power10Add(5, 5);
    Power10Add(10, 10);
  }

  lemma {:induction false} Power10Add(a: nat, b: nat)
    ensures Power10(a + b) == Power10(a) * Power10(b)
  {
    if a == 0 {
    } else {
      Power10Add(a - 1, b);
    }
  }

  lemma GenerationKeys(m: nat, n: nat)
    requires m < GENERATIONS && n < GENERATIONS
    ensures LexLess(Digits(m, WIDTH), Digits(n, WIDTH)) <==> m < n
    ensures Digits(m, WIDTH) == Digits(n, WIDTH) <==> m == n
  {
    TwentyDigits();
    DigitsOrder(m, n, WIDTH);
  }

  /** Manifest keys of one pack sort as their generations. */
  lemma ManifestKeyOrder(id: string, m: nat, n: nat)
    requires m < GENERATIONS && n < GENERATIONS
    ensures LexLess(ManifestKey(id, m), ManifestKey(id, n)) <==> m < n
    ensures ManifestKey(id, m) == ManifestKey(id, n) <==> m == n
  {
    GenerationKeys(m, n);
    var a, b := Digits(m, WIDTH), Digits(n, WIDTH);
    LexSuffix(a, b, ".json");
    LexPrefix(Prefix(id), a + ".json", b + ".json");
    assert ManifestKey(id, m) == Prefix(id) + (a + ".json");
    assert ManifestKey(id, n) == Prefix(id) + (b + ".json");
    var k, p := ManifestKey(id, m), |Prefix(id)|;
    assert k[p..p + WIDTH] == a;
    assert ManifestKey(id, n)[p..p + WIDTH] == b;
  }

  lemma ArchiveKeyInjective(id: string, m: nat, n: nat)
    requires m < GENERATIONS && n < GENERATIONS
    ensures ArchiveKey(id, m) == ArchiveKey(id, n) <==> m == n
  {
    GenerationKeys(m, n);
    var k, p := ArchiveKey(id, m), |Prefix(id)|;
    assert k[p..p + WIDTH] == Digits(m, WIDTH);
    assert ArchiveKey(id, n)[p..p + WIDTH] == Digits(n, WIDTH);
  }

  lemma KeyShape(id: string, gen: nat)
    ensures HasPrefix(ManifestKey(id, gen), Prefix(id)) && HasSuffix(ManifestKey(id, gen), ".json")
    ensures HasPrefix(ArchiveKey(id, gen), Prefix(id)) && !HasSuffix(ArchiveKey(id, gen), ".json")
  {
    var k := ArchiveKey(id, gen);
    assert k[|k| - 1] == 't';
    assert ".json"[4] == 'n';
  }

  /** Two packs never share a key: an ID contains no slash, so a key names its pack. */
  lemma PackOfKey(id: string, key: string)
    requires NoSlash(id) && HasPrefix(key, Prefix(id))
    ensures Components(key)[0] == id
  {
    var rest := key[|id| + 1..];
    assert key[..|id| + 7] == Prefix(id);
    assert key[|id|] == Prefix(id)[|id|] == '/';
    assert key[..|id|] == Prefix(id)[..|id|] == id;
    assert key == id + "/" + rest;
    SplitSlash(id, rest);
    SplitNoSlash(id);
  }

  /** How one pack's objects are named. */
  datatype Naming = Naming(prefix: string, archive: nat -> string, manifest: nat -> string)

  function KeysOf(id: string): Naming {
    Naming(Prefix(id), (gen: nat) => ArchiveKey(id, gen), (gen: nat) => ManifestKey(id, gen))
  }

  /** All that the store needs of its key names. */
  ghost predicate Lawful(k: Naming) {
    && (forall m: nat, n: nat :: m < GENERATIONS && n < GENERATIONS ==>
          (k.manifest(m) == k.manifest(n) <==> m == n) && (LexLess(k.manifest(m), k.manifest(n)) <==> m < n))
    && (forall m: nat, n: nat :: m < GENERATIONS && n < GENERATIONS ==> (k.archive(m) == k.archive(n) <==> m == n))
    && (forall m: nat :: HasPrefix(k.manifest(m), k.prefix) && HasSuffix(k.manifest(m), ".json"))
    && (forall m: nat :: HasPrefix(k.archive(m), k.prefix) && !HasSuffix(k.archive(m), ".json"))
  }

  ghost predicate Apart(k: Naming, l: Naming) {
    forall key :: HasPrefix(key, k.prefix) ==> !HasPrefix(key, l.prefix)
  }

  /** Zero-padded keys are lawful: they order lexicographically as generations order
      numerically, and packs do not share keys. */
  lemma KeysLawful(id: string)
    ensures Lawful(KeysOf(id))
  {
    var k := KeysOf(id);
    forall m: nat, n: nat | m < GENERATIONS && n < GENERATIONS
      ensures (k.manifest(m) == k.manifest(n) <==> m == n) && (LexLess(k.manifest(m), k.manifest(n)) <==> m < n)
      ensures k.archive(m) == k.archive(n) <==> m == n
    {
      ManifestKeyOrder(id, m, n);
      ArchiveKeyInjective(id, m, n);
    }
    forall m: nat
      ensures HasPrefix(k.manifest(m), k.prefix) && HasSuffix(k.manifest(m), ".json")
      ensures HasPrefix(k.archive(m), k.prefix) && !HasSuffix(k.archive(m), ".json")
    {
      KeyShape(id, m);
    }
  }

  lemma PacksApart(id: string, other: string)
    requires NoSlash(id) && NoSlash(other) && id != other
    ensures Apart(KeysOf(id), KeysOf(other))
  {
    forall key | HasPrefix(key, Prefix(id)) ensures !HasPrefix(key, Prefix(other)) {
      PackOfKey(id, key);
      if HasPrefix(key, Prefix(other)) {
        PackOfKey(other, key);
      }
    }
  }

  // ------------------------------------------------------------ what the keys say

  /** The number that decimal digits write. */
  function Value(s: string): nat
    requires forall i :: 0 <= i < |s| ==> '0' <= s[i] <= '9'
  {
    if s == "" then 0 else 10 * Value(s[..|s| - 1]) + (s[|s| - 1] as int - '0' as int)
  }

  /** Padded digits are decimal and write the number, whenever it fits. */
  lemma {:induction false} DigitsWrite(n: nat, w: nat)
    ensures |Digits(n, w)| == w && forall i :: 0 <= i < w ==> '0' <= Digits(n, w)[i] <= '9'
    ensures n < Power10(w) ==> Value(Digits(n, w)) == n
  {
    if w == 0 {
    } else {
      DigitsWrite(n / 10, w - 1);
      assert Digits(n, w)[..w - 1] == Digits(n / 10, w - 1);
    }
  }

  /** The keys of a generation: its twenty decimal digits below the pack's directory. */
  lemma KeysWriteGeneration(id: string, gen: nat)
    requires gen < 18446744073709551616
    ensures exists s: string ::
              && |s| == 20 && (forall i :: 0 <= i < |s| ==> '0' <= s[i] <= '9') && Value(s) == gen
              && ManifestKey(id, gen) == id + "/saves/" + s + ".json"
              && ArchiveKey(id, gen) == id + "/saves/" + s + ".tar.zst"
  {
    TwentyDigits();
    DigitsWrite(gen, 20);
    var s := Digits(gen, 20);
    assert ManifestKey(id, gen) == id + "/saves/" + s + ".json";
  }
}
