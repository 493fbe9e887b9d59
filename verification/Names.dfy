/** Names: the deterministic, length-limited Job names shared by both reconcilers.
    Kubernetes names are ASCII, so a character stands for a byte here. */
module Names {

  const LABEL_LIMIT := 63
  const HASH_SUFFIX := 9

  // ---- FNV-1a and its rendering --------------------------------------------------

  function Fnv1a(s: string, h: bv32 := 2166136261): bv32 {
    if s == "" then h
    else Fnv1a(s[1..], (h ^ ((s[0] as int % 256) as bv32)) * 16777619)
  }

  const HEX := "0123456789abcdef"

  // The low `width` hexadecimal digits of n, most significant first (%0<width>x).
  function Hex(n: nat, width: nat): (s: string)
    ensures |s| == width
  {
    if width == 0 then "" else Hex(n / 16, width - 1) + [HEX[n % 16]]
  }

  function Power16(width: nat): nat {
    if width == 0 then 1 else 16 * Power16(width - 1)
  }

  lemma {:induction false} HexInjective(m: nat, n: nat, width: nat)
    requires m < Power16(width) && n < Power16(width)
    requires Hex(m, width) == Hex(n, width)
    ensures m == n
  {
    if width > 0 {
      var a, b := Hex(m / 16, width - 1), Hex(n / 16, width - 1);
      assert (a + [HEX[m % 16]])[..width - 1] == a && (b + [HEX[n % 16]])[..width - 1] == b;
      assert (a + [HEX[m % 16]])[width - 1] == HEX[m % 16] && (b + [HEX[n % 16]])[width - 1] == HEX[n % 16];
      HexInjective(m / 16, n / 16, width - 1);
    }
  }

  lemma {:induction false} HexDigitsOnly(n: nat, width: nat)
    ensures forall c | c in Hex(n, width) :: c in HEX
  {
    if width > 0 { HexDigitsOnly(n / 16, width - 1); }
  }

  function HashOf(full: string): nat {
    Fnv1a(full) as nat
  }

  lemma HashFits(full: string)
    ensures HashOf(full) < Power16(8)
  {
    assert Power16(8) == 0x1_0000_0000;
  }

  // ---- Job names -----------------------------------------------------------------

  function TrimDashes(s: string): (t: string)
    ensures t <= s
    ensures t != "" ==> t[|t| - 1] != '-'
  {
    if s != "" && s[|s| - 1] == '-' then TrimDashes(s[..|s| - 1]) else s
  }

  function FullName(owner: string, part: string): string {
    owner + "-" + part
  }

  predicate Truncated(owner: string, part: string) {
    |FullName(owner, part)| > LABEL_LIMIT
  }

  function JobName(owner: string, part: string): string {
    var full := FullName(owner, part);
    if |full| <= LABEL_LIMIT then full
    else TrimDashes(full[..LABEL_LIMIT - HASH_SUFFIX]) + "-" + Hex(HashOf(full), 8)
  }

  lemma JobNameFits(owner: string, part: string)
    ensures |JobName(owner, part)| <= LABEL_LIMIT
  {
    var full := FullName(owner, part);
    if |full| > LABEL_LIMIT {
      assert |TrimDashes(full[..LABEL_LIMIT - HASH_SUFFIX])| <= LABEL_LIMIT - HASH_SUFFIX;
    }
  }

  lemma JobNameInjectiveShort(owner: string, p: string, q: string)
    requires !Truncated(owner, p) && !Truncated(owner, q)
    requires JobName(owner, p) == JobName(owner, q)
    ensures p == q
  {
    assert FullName(owner, p)[|owner| + 1..] == p;
    assert FullName(owner, q)[|owner| + 1..] == q;
  }

  // Two truncated names coincide exactly when the kept prefix and the 32-bit sum both coincide.
  lemma TruncatedNamesCoincide(owner: string, p: string, q: string)
    requires Truncated(owner, p) && Truncated(owner, q)
    ensures JobName(owner, p) == JobName(owner, q) <==>
              TrimDashes(FullName(owner, p)[..54]) == TrimDashes(FullName(owner, q)[..54])
              && HashOf(FullName(owner, p)) == HashOf(FullName(owner, q))
  {
    var x, y := TrimDashes(FullName(owner, p)[..54]), TrimDashes(FullName(owner, q)[..54]);
    var m, n := HashOf(FullName(owner, p)), HashOf(FullName(owner, q));
    var left, right := x + "-" + Hex(m, 8), y + "-" + Hex(n, 8);
    if left == right {
      assert |x| == |y|;
      assert left[..|x|] == x && right[..|y|] == y;
      assert left[|x| + 1..] == Hex(m, 8) && right[|y| + 1..] == Hex(n, 8);
      HashFits(FullName(owner, p));
      HashFits(FullName(owner, q));
      HexInjective(m, n, 8);
    }
  }

  // ---- label validity ---------------------------------------------------------------

  predicate AlphaNum(c: char) {
    'a' <= c <= 'z' || '0' <= c <= '9'
  }

  // Letters, digits and inner dashes (section 2.1 of RFC 1123), within the 63 octets of
  // section 2.3.4 of RFC 1035.
  predicate IsLabel(s: string) {
    && 0 < |s| <= LABEL_LIMIT
    && AlphaNum(s[0]) && AlphaNum(s[|s| - 1])
    && forall c | c in s :: AlphaNum(c) || c == '-'
  }

  lemma JobNameIsLabel(owner: string, part: string)
    requires IsLabel(owner) && IsLabel(part)
    ensures IsLabel(JobName(owner, part))
  {
    var full := FullName(owner, part);
    JobNameFits(owner, part);
    assert full[0] == owner[0] && full[|full| - 1] == part[|part| - 1];
    forall c | c in full ensures AlphaNum(c) || c == '-' {
      assert c in owner || c == '-' || c in part;
    }
    if |full| > LABEL_LIMIT { ShortenedIsLabel(full); }
  }

  lemma ShortenedIsLabel(full: string)
    requires |full| > LABEL_LIMIT && AlphaNum(full[0])
    requires forall c | c in full :: AlphaNum(c) || c == '-'
    ensures var short := TrimDashes(full[..54]) + "-" + Hex(HashOf(full), 8);
            |short| <= LABEL_LIMIT ==> IsLabel(short)
  {
    var cut := full[..54];
    var head, digits := TrimDashes(cut), Hex(HashOf(full), 8);
    KeepsHead(cut);
    HexDigitsOnly(HashOf(full), 8);
    assert forall c | c in HEX :: AlphaNum(c);
    assert digits[7] in digits;
    forall c | c in head + "-" + digits ensures AlphaNum(c) || c == '-' {
      if c in head { assert c in cut; assert c in full; }
    }
  }

  lemma {:induction false} KeepsHead(s: string)
    requires s != "" && s[0] != '-'
    ensures TrimDashes(s) != "" && TrimDashes(s)[0] == s[0]
  {
    if s[|s| - 1] == '-' { KeepsHead(s[..|s| - 1]); }
  }

  // Trimming dashes never eats into a prefix that ends in another character.
  lemma {:induction false} TrimKeepsPrefix(s: string, prefix: string)
    requires prefix <= s && prefix != "" && prefix[|prefix| - 1] != '-'
    ensures prefix <= TrimDashes(s)
  {
    if s[|s| - 1] == '-' {
      assert |prefix| < |s|;
      TrimKeepsPrefix(s[..|s| - 1], prefix);
    }
  }
}
