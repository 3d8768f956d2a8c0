/** The IP whitelist: exact address strings, and IPv4 ranges kept as network and mask. The masks are worked out on
    32-bit words as the code does; what a line n/p means is stated with intervals. */
module Whitelist {
  import opened Pdu
  import opened Wrappers

  // ---------------------------------------------------------------- 32-bit words

  const ALL_ONES: u32 := 0xFFFF_FFFF

  function Pow2(k: nat): (p: nat)
    ensures p >= 1
  {
    if k == 0 then 1 else 2 * Pow2(k - 1)
  }

  /** Bitwise and. */
  function And(a: nat, b: nat): nat {
    if a == 0 || b == 0 then 0 else 2 * And(a / 2, b / 2) + (a % 2) * (b % 2)
  }

  /** Left shift of a 32-bit word, losing what leaves it. */
  function Shl(a: u32, k: nat): u32 { a * Pow2(k) % 0x1_0000_0000 }

  function Mask(prefix: nat): u32
    requires prefix <= 32
  {
    if prefix == 0 then 0 else Shl(ALL_ONES, 32 - prefix)
  }

  lemma {:induction false} AndOnes(w: nat, a: nat)
    requires a < Pow2(w)
    ensures And(a, Pow2(w) - 1) == a
  {
    if w != 0 && a != 0 {
      AndOnes(w - 1, a / 2);
      assert (Pow2(w) - 1) / 2 == Pow2(w - 1) - 1;
    }
  }

  lemma {:induction false} Pow2Grows(j: nat, k: nat)
    requires j <= k
    ensures Pow2(j) <= Pow2(k)
  {
    if j < k {
      Pow2Grows(j, k - 1);
    }
  }

  /** Splitting a remainder at its lowest bit. */
  lemma ModTwice(a: nat, m: nat)
    requires m >= 1
    ensures a % (2 * m) == 2 * (a / 2 % m) + a % 2
  {
    var q, r := a / 2 / m, a / 2 % m;
    assert a / 2 == q * m + r;
    assert a == q * (2 * m) + (2 * r + a % 2);
    DivModUnique(a, 2 * m, q, 2 * r + a % 2);
  }

  lemma SmallMultiple(d: int, m: nat)
    ensures d >= 1 ==> d * m >= m
    ensures d <= -1 ==> d * m + m <= 0
  {
    if d >= 1 {
      assert (d - 1) * m >= 0;
    } else if d <= -1 {
      assert (-1 - d) * m >= 0;
    }
  }

  lemma Distribute(a: int, b: int, m: int)
    ensures (a - b) * m == a * m - b * m
  {
  }

  lemma DivModUnique(a: nat, m: nat, q: nat, r: nat)
    requires m >= 1 && a == q * m + r && r < m
    ensures a / m == q && a % m == r
  {
    var q', r' := a / m, a % m;
    assert a == q' * m + r';
    Distribute(q', q, m);
    SmallMultiple(q' - q, m);
  }

  /** The lowest number of the aligned block of that size in which `x` lies. */
  function Lowest(x: nat, size: nat): nat
    requires size >= 1
  {
    x - x % size
  }

  lemma LowestTwice(a: nat, m: nat)
    requires m >= 1
    ensures Lowest(a, 2 * m) == 2 * Lowest(a / 2, m)
  {
    ModTwice(a, m);
  }

  lemma LowestOne(a: nat)
    ensures Lowest(a, 1) == a
  {
  }

  lemma AndEven(a: nat, b: nat)
    ensures And(a, 2 * b) == 2 * And(a / 2, b)
  {
    assert 2 * b / 2 == b && 2 * b % 2 == 0;
  }

  /** And with w - k ones followed by k zeros clears the k lowest bits. */
  lemma {:induction false} AndClears(w: nat, k: nat, a: nat)
    requires k <= w && a < Pow2(w)
    ensures Pow2(k) <= Pow2(w) && And(a, Pow2(w) - Pow2(k)) == Lowest(a, Pow2(k))
  {
    hide Lowest;
    hide And;
    Pow2Grows(k, w);
    if k == 0 {
      AndOnes(w, a);
      LowestOne(a);
    } else {
      Pow2Grows(k - 1, w - 1);
      AndClears(w - 1, k - 1, a / 2);
      LowestTwice(a, Pow2(k - 1));
      AndEven(a, Pow2(w - 1) - Pow2(k - 1));
    }
  }

  lemma Pow2Of32()
    ensures Pow2(32) == 0x1_0000_0000
  {
    assert Pow2(8) == 0x100 by {
      assert Pow2(4) == 16;
      assert Pow2(8) == 2 * Pow2(7) && Pow2(7) == 2 * Pow2(6) && Pow2(6) == 2 * Pow2(5) && Pow2(5) == 2 * Pow2(4);
    }
    Pow2Add(8, 8);
    Pow2Add(16, 16);
  }

  lemma {:induction false} Pow2Add(j: nat, k: nat)
    ensures Pow2(j + k) == Pow2(j) * Pow2(k)
  {
    if k != 0 {
      Pow2Add(j, k - 1);
      assert Pow2(j) * (2 * Pow2(k - 1)) == 2 * (Pow2(j) * Pow2(k - 1));
    }
  }

  /** The mask of a prefix length is all ones above its host bits. */
  lemma MaskValue(prefix: nat)
    requires prefix <= 32
    ensures Pow2(32 - prefix) <= 0x1_0000_0000 && Mask(prefix) == 0x1_0000_0000 - Pow2(32 - prefix)
  {
    Pow2Of32();
    var k := 32 - prefix;
    Pow2Grows(k, 32);
    if prefix != 0 {
      var p := Pow2(k);
      assert ALL_ONES * p == (p - 1) * 0x1_0000_0000 + (0x1_0000_0000 - p);
      DivModUnique(ALL_ONES * p, 0x1_0000_0000, p - 1, 0x1_0000_0000 - p);
    }
  }

  // ---------------------------------------------------------------- ranges

  datatype Cidr = Cidr(network: nat, mask: u32)

  function MakeCidr(net: u32, prefix: nat): Cidr
    requires prefix <= 32
  {
    Cidr(And(net, Mask(prefix)), Mask(prefix))
  }

  predicate Matches(c: Cidr, addr: u32) { And(addr, c.mask) == c.network }

  /** The block n/p names: 2^(32-p) addresses, aligned to its size, that n lies in. */
  predicate InBlock(addr: u32, net: u32, prefix: nat)
    requires prefix <= 32
  {
    var size := Pow2(32 - prefix);
    Lowest(net, size) <= addr < Lowest(net, size) + size
  }

  lemma SameBlock(x: nat, y: nat, size: nat)
    requires size >= 1
    ensures Lowest(x, size) == Lowest(y, size) <==> Lowest(y, size) <= x < Lowest(y, size) + size
  {
    if Lowest(y, size) <= x < Lowest(y, size) + size {
      var q := y / size;
      assert Lowest(y, size) == q * size;
      DivModUnique(x, size, q, x - q * size);
    }
  }

  /** Mask arithmetic is interval arithmetic, whatever host bits the network carries. */
  lemma MatchesBlock(addr: u32, net: u32, prefix: nat)
    requires prefix <= 32
    ensures Matches(MakeCidr(net, prefix), addr) <==> InBlock(addr, net, prefix)
  {
    hide And;
    hide Mask;
    hide Pow2;
    hide Lowest;
    Pow2Of32();
    MaskValue(prefix);
    AndClears(32, 32 - prefix, addr);
    AndClears(32, 32 - prefix, net);
    SameBlock(addr, net, Pow2(32 - prefix));
  }

  // ---------------------------------------------------------------- config lines

  /** The library calls the code relies on: inet_pton for IPv4, and stoi, which throws when it finds no number. */
  datatype Parsers = Parsers(ipv4: string -> Option<u32>, number: string -> Option<int>)

  predicate IsSpace(c: char) { c in {' ', '\t', '\n', '\U{000B}', '\U{000C}', '\r'} }

  function TrimLeft(s: string): string {
    if s != [] && IsSpace(s[0]) then TrimLeft(s[1..]) else s
  }

  function TrimRight(s: string): string {
    if s != [] && IsSpace(s[|s| - 1]) then TrimRight(s[..|s| - 1]) else s
  }

  function Trim(s: string): string { TrimRight(TrimLeft(s)) }

  predicate Spaces(s: string) { forall k | 0 <= k < |s| :: IsSpace(s[k]) }

  /** Trimming takes spaces off both ends, and leaves none there. */
  lemma TrimMeaning(s: string) returns (front: string, back: string)
    ensures s == front + Trim(s) + back && Spaces(front) && Spaces(back)
    ensures Trim(s) != [] ==> !IsSpace(Trim(s)[0]) && !IsSpace(Trim(s)[|Trim(s)| - 1])
  {
    front := TrimLeftMeaning(s);
    back := TrimRightMeaning(TrimLeft(s));
  }

  lemma {:induction false} TrimLeftMeaning(s: string) returns (front: string)
    ensures s == front + TrimLeft(s) && Spaces(front)
    ensures TrimLeft(s) != [] ==> !IsSpace(TrimLeft(s)[0])
  {
    front := [];
    if s != [] && IsSpace(s[0]) {
      front := TrimLeftMeaning(s[1..]);
      front := [s[0]] + front;
    }
  }

  lemma {:induction false} TrimRightMeaning(s: string) returns (back: string)
    ensures s == TrimRight(s) + back && Spaces(back)
    ensures TrimRight(s) != [] ==> !IsSpace(TrimRight(s)[|TrimRight(s)| - 1])
  {
    back := [];
    if s != [] && IsSpace(s[|s| - 1]) {
      back := TrimRightMeaning(s[..|s| - 1]);
      back := back + [s[|s| - 1]];
    }
  }

  function FindSlash(s: string): (k: nat)
    ensures k <= |s| && '/' !in s[..k] && (k < |s| ==> s[k] == '/')
  {
    if s == [] || s[0] == '/' then 0
    else
      var k := FindSlash(s[1..]);
      assert s[..k + 1] == [s[0]] + s[1..][..k];
      k + 1
  }

  /** What a line of the file says. */
  datatype Rule = Skip | Exact(address: string) | Range(net: u32, prefix: nat) | Malformed

  type GoodRule = r: Rule | r.Range? ==> r.prefix <= 32 witness Skip

  function Meaning(lib: Parsers, raw: string): GoodRule {
    var line := Trim(raw);
    var slash := FindSlash(line);
    if line == [] || line[0] == '#' then Skip
    else if slash == |line| then Exact(line)
    else
      match lib.number(line[slash + 1..])
      case None => Malformed
      case Some(p) =>
        match lib.ipv4(line[..slash])
        case None => Skip
        case Some(net) => if 0 <= p <= 32 then Range(net, p) else Skip
  }

  datatype Rules = Rules(exact: set<string>, cidrs: seq<Cidr>)

  function AddRule(rs: Rules, r: GoodRule): Rules {
    match r
    case Exact(a) => rs.(exact := rs.exact + {a})
    case Range(n, p) => rs.(cidrs := rs.cidrs + [MakeCidr(n, p)])
    case _ => rs
  }

  /** The lines that take effect: loading stops with an exception at the first malformed one. */
  function Effective(lib: Parsers, lines: seq<string>): (e: seq<string>)
    ensures e <= lines && (|e| < |lines| ==> Meaning(lib, lines[|e|]) == Malformed)
    ensures forall k | 0 <= k < |e| :: Meaning(lib, e[k]) != Malformed
  {
    if lines == [] then []
    else
      var e := Effective(lib, lines[..|lines| - 1]);
      var last := lines[|lines| - 1];
      if |e| == |lines| - 1 && Meaning(lib, last) != Malformed then e + [last] else e
  }

  function Load(lib: Parsers, lines: seq<string>): Rules {
    if lines == [] then Rules({}, []) else AddRule(Load(lib, lines[..|lines| - 1]), Meaning(lib, lines[|lines| - 1]))
  }

  predicate MatchesAny(cidrs: seq<Cidr>, addr: u32) {
    exists k | 0 <= k < |cidrs| :: Matches(cidrs[k], addr)
  }

  predicate Allowed(lib: Parsers, rs: Rules, ip: string) {
    || ip in rs.exact
    || (lib.ipv4(ip).Some? && MatchesAny(rs.cidrs, lib.ipv4(ip).value))
  }

  // ---------------------------------------------------------------- what the list means

  /** A line admits an address: it is that address, or a range whose block the address lies in. */
  predicate Admits(lib: Parsers, line: string, ip: string) {
    match Meaning(lib, line)
    case Exact(a) => a == ip
    case Range(n, p) => lib.ipv4(ip).Some? && InBlock(lib.ipv4(ip).value, n, p)
    case _ => false
  }

  lemma {:induction false} LoadMeaning(lib: Parsers, lines: seq<string>, ip: string)
    ensures Allowed(lib, Load(lib, lines), ip) <==> exists k | 0 <= k < |lines| :: Admits(lib, lines[k], ip)
  {
    if lines != [] {
      var init, last := lines[..|lines| - 1], lines[|lines| - 1];
      LoadMeaning(lib, init, ip);
      AddRuleMeaning(lib, Load(lib, init), last, ip);
      if Allowed(lib, Load(lib, lines), ip) {
        if Admits(lib, last, ip) {
          assert Admits(lib, lines[|lines| - 1], ip);
        } else {
          var k :| 0 <= k < |init| && Admits(lib, init[k], ip);
          assert Admits(lib, lines[k], ip);
        }
      }
      if k :| 0 <= k < |lines| && Admits(lib, lines[k], ip) {
        if k < |init| {
          assert Admits(lib, init[k], ip);
        }
      }
    }
  }

  /** One more line admits exactly what it says. */
  lemma AddRuleMeaning(lib: Parsers, rs: Rules, line: string, ip: string)
    ensures Allowed(lib, AddRule(rs, Meaning(lib, line)), ip) <==> Allowed(lib, rs, ip) || Admits(lib, line, ip)
  {
    hide Meaning;
    hide Matches;
    hide InBlock;
    var r := Meaning(lib, line);
    if r.Range? && lib.ipv4(ip).Some? {
      var addr, c := lib.ipv4(ip).value, MakeCidr(r.net, r.prefix);
      MatchesBlock(addr, r.net, r.prefix);
      MatchesOneMore(rs.cidrs, c, addr);
    }
  }

  lemma MatchesOneMore(cidrs: seq<Cidr>, c: Cidr, addr: u32)
    ensures MatchesAny(cidrs + [c], addr) <==> MatchesAny(cidrs, addr) || Matches(c, addr)
  {
    hide Matches;
    var more := cidrs + [c];
    if k :| 0 <= k < |cidrs| && Matches(cidrs[k], addr) {
      assert Matches(more[k], addr);
    }
    assert more[|cidrs|] == c;
  }

  // ---------------------------------------------------------------- what the file says

  /** `text` is what a line says between the spaces at its ends. */
  predicate IsText(raw: string, front: string, text: string, back: string) {
    && raw == front + text + back && Spaces(front) && Spaces(back)
    && (text != [] ==> !IsSpace(text[0]) && !IsSpace(text[|text| - 1]))
  }

  predicate IsComment(text: string) { text == [] || text[0] == '#' }

  /** `ip` lies in the block that the range n/q names. */
  predicate InRange(lib: Parsers, n: string, q: string, ip: string) {
    && lib.number(q).Some? && 0 <= lib.number(q).value <= 32
    && lib.ipv4(n).Some? && lib.ipv4(ip).Some?
    && InBlock(lib.ipv4(ip).value, lib.ipv4(n).value, lib.number(q).value)
  }

  /** A line that is a range whose prefix is no number. */
  ghost predicate LineStops(lib: Parsers, raw: string) {
    exists front, n, q, back ::
      IsText(raw, front, n + "/" + q, back) && !IsComment(n + "/" + q) && '/' !in n && lib.number(q).None?
  }

  /** A line that is this address, or a range in which it lies. */
  ghost predicate LineAdmits(lib: Parsers, raw: string, ip: string) {
    || (!IsComment(ip) && '/' !in ip && exists front, back :: IsText(raw, front, ip, back))
    || exists front, n, q, back ::
         IsText(raw, front, n + "/" + q, back) && !IsComment(n + "/" + q) && '/' !in n && InRange(lib, n, q, ip)
  }

  lemma {:induction false} TrimLeftSpaces(front: string, rest: string)
    requires Spaces(front) && (rest != [] ==> !IsSpace(rest[0]))
    ensures TrimLeft(front + rest) == rest
  {
    if front == [] {
      assert front + rest == rest;
    } else {
      TrimLeftSpaces(front[1..], rest);
      assert (front + rest)[1..] == front[1..] + rest;
    }
  }

  lemma {:induction false} TrimRightSpaces(rest: string, back: string)
    requires Spaces(back) && (rest != [] ==> !IsSpace(rest[|rest| - 1]))
    ensures TrimRight(rest + back) == rest
  {
    if back == [] {
      assert rest + back == rest;
    } else {
      var init := back[..|back| - 1];
      TrimRightSpaces(rest, init);
      assert (rest + back)[..|rest + back| - 1] == rest + init;
    }
  }

  /** Trimming finds the text, and there is no other. */
  lemma TrimUnique(raw: string, front: string, text: string, back: string)
    requires IsText(raw, front, text, back)
    ensures Trim(raw) == text
  {
    if text == [] {
      assert raw == (front + back) + [];
      TrimLeftSpaces(front + back, []);
    } else {
      assert raw == front + (text + back);
      TrimLeftSpaces(front, text + back);
      TrimRightSpaces(text, back);
    }
  }

  lemma SlashUnique(n: string, q: string)
    requires '/' !in n
    ensures FindSlash(n + "/" + q) == |n|
  {
    var s := n + "/" + q;
    var k := FindSlash(s);
    assert s[|n|] == '/';
    assert forall j | 0 <= j < |n| :: s[j] == n[j];
    assert forall j | 0 <= j < k :: s[j] == s[..k][j];
  }

  /** How a range line is read. */
  lemma RangeMeaning(lib: Parsers, raw: string, front: string, n: string, q: string, back: string)
    requires IsText(raw, front, n + "/" + q, back) && !IsComment(n + "/" + q) && '/' !in n
    ensures Meaning(lib, raw) == Malformed <==> lib.number(q).None?
    ensures forall ip :: Admits(lib, raw, ip) <==> InRange(lib, n, q, ip)
  {
    hide Trim;
    hide FindSlash;
    hide InBlock;
    var text := n + "/" + q;
    TrimUnique(raw, front, text, back);
    SlashUnique(n, q);
    assert text[..|n|] == n && text[|n| + 1..] == q;
  }

  lemma ExactMeaning(lib: Parsers, raw: string, front: string, text: string, back: string)
    requires IsText(raw, front, text, back) && !IsComment(text) && '/' !in text
    ensures Meaning(lib, raw) == Exact(text)
  {
    hide Trim;
    TrimUnique(raw, front, text, back);
  }

  lemma CommentMeaning(lib: Parsers, raw: string, front: string, text: string, back: string)
    requires IsText(raw, front, text, back) && IsComment(text)
    ensures Meaning(lib, raw) == Skip
  {
    TrimUnique(raw, front, text, back);
  }

  /** What the code makes of a line is what the line says. */
  lemma LineMeaning(lib: Parsers, raw: string, ip: string)
    ensures LineStops(lib, raw) <==> Meaning(lib, raw) == Malformed
    ensures LineAdmits(lib, raw, ip) <==> Admits(lib, raw, ip)
  {
    hide Meaning;
    hide Admits;
    hide InRange;
    var front, back := TrimMeaning(raw);
    var text := Trim(raw);
    assert IsText(raw, front, text, back);
    LineRead(lib, raw, ip, front, text, back);
    if LineStops(lib, raw) {
      var f, n, q, b :|
        IsText(raw, f, n + "/" + q, b) && !IsComment(n + "/" + q) && '/' !in n && lib.number(q).None?;
      RangeMeaning(lib, raw, f, n, q, b);
    }
    if f, n, q, b :|
       IsText(raw, f, n + "/" + q, b) && !IsComment(n + "/" + q) && '/' !in n && InRange(lib, n, q, ip) {
      RangeMeaning(lib, raw, f, n, q, b);
    } else if LineAdmits(lib, raw, ip) {
      var f, b :| IsText(raw, f, ip, b);
      ExactMeaning(lib, raw, f, ip, b);
      ExactAdmits(lib, raw, ip);
    }
  }

  lemma ExactAdmits(lib: Parsers, raw: string, text: string)
    requires Meaning(lib, raw) == Exact(text)
    ensures forall ip :: Admits(lib, raw, ip) <==> ip == text
  {
    hide Meaning;
  }

  lemma LineRead(lib: Parsers, raw: string, ip: string, front: string, text: string, back: string)
    requires IsText(raw, front, text, back)
    ensures Meaning(lib, raw) == Malformed ==> LineStops(lib, raw)
    ensures Admits(lib, raw, ip) ==> LineAdmits(lib, raw, ip)
  {
    hide InRange;
    hide FindSlash;
    if IsComment(text) {
      CommentMeaning(lib, raw, front, text, back);
    } else {
      hide Meaning;
      var k := FindSlash(text);
      if k == |text| {
        assert text[..k] == text;
        ExactMeaning(lib, raw, front, text, back);
      } else {
        hide Admits;
        var n, q := text[..k], text[k + 1..];
        assert text == n + "/" + q;
        RangeMeaning(lib, raw, front, n, q, back);
      }
    }
  }

  /** Some line admits the address, and no line up to it stops the load. */
  ghost predicate FileAdmits(lib: Parsers, lines: seq<string>, ip: string) {
    exists k | 0 <= k < |lines| :: LineAdmits(lib, lines[k], ip) && forall j | 0 <= j <= k :: !LineStops(lib, lines[j])
  }

  /** An address is allowed exactly when the file admits it, and all lines take effect exactly when none stops the
      load. */
  lemma AllowedExactly(lib: Parsers, lines: seq<string>, ip: string)
    ensures Allowed(lib, Load(lib, Effective(lib, lines)), ip) <==> FileAdmits(lib, lines, ip)
    ensures Effective(lib, lines) == lines <==> forall k | 0 <= k < |lines| :: !LineStops(lib, lines[k])
  {
    hide Meaning;
    hide Admits;
    hide LineStops;
    hide LineAdmits;
    hide Allowed;
    hide Load;
    var e := Effective(lib, lines);
    LoadMeaning(lib, e, ip);
    forall k | 0 <= k < |lines|
      ensures LineStops(lib, lines[k]) <==> Meaning(lib, lines[k]) == Malformed
      ensures LineAdmits(lib, lines[k], ip) <==> Admits(lib, lines[k], ip)
    {
      LineMeaning(lib, lines[k], ip);
    }
    if k :| 0 <= k < |e| && Admits(lib, e[k], ip) {
      assert lines[k] == e[k] && forall j | 0 <= j <= k :: lines[j] == e[j];
    }
    if k :| 0 <= k < |lines| && LineAdmits(lib, lines[k], ip) && forall j | 0 <= j <= k :: !LineStops(lib, lines[j]) {
      assert |e| > k && e[k] == lines[k];
    }
  }

  lemma OrderIrrelevant(lib: Parsers, a: seq<string>, b: seq<string>, ip: string)
    requires forall l :: l in a <==> l in b
    requires forall k | 0 <= k < |a| :: !LineStops(lib, a[k])
    ensures Allowed(lib, Load(lib, Effective(lib, a)), ip) <==> Allowed(lib, Load(lib, Effective(lib, b)), ip)
  {
    hide LineStops;
    hide LineAdmits;
    hide Allowed;
    hide Load;
    hide Effective;
    forall k | 0 <= k < |b| ensures !LineStops(lib, b[k]) {
      assert b[k] in a;
    }
    AllowedExactly(lib, a, ip);
    AllowedExactly(lib, b, ip);
    if k :| 0 <= k < |a| && LineAdmits(lib, a[k], ip) {
      assert a[k] in b;
    }
    if k :| 0 <= k < |b| && LineAdmits(lib, b[k], ip) {
      assert b[k] in a;
    }
  }

  lemma EffectiveUpTo(lib: Parsers, lines: seq<string>, i: nat)
    requires i < |lines| && Meaning(lib, lines[i]) == Malformed
    requires forall k | 0 <= k < i :: Meaning(lib, lines[k]) != Malformed
    ensures Effective(lib, lines) == lines[..i]
  {
    hide Meaning;
    var e := Effective(lib, lines);
    assert |e| <= i;
    assert |e| >= i;
  }

  /** A line that stops the load hides every line behind it, and none before it. */
  lemma MalformedHidesRest(lib: Parsers, before: seq<string>, bad: string, rest: seq<string>, ip: string)
    requires LineStops(lib, bad)
    ensures FileAdmits(lib, before + [bad] + rest, ip) <==> FileAdmits(lib, before, ip)
  {
    hide LineStops;
    hide LineAdmits;
    var lines := before + [bad] + rest;
    assert lines[|before|] == bad;
    if k :| 0 <= k < |lines| && LineAdmits(lib, lines[k], ip) && forall j | 0 <= j <= k :: !LineStops(lib, lines[j]) {
      assert k < |before|;
      assert forall j | 0 <= j <= k :: lines[j] == before[j];
    }
    if k :| 0 <= k < |before| && LineAdmits(lib, before[k], ip)
            && forall j | 0 <= j <= k :: !LineStops(lib, before[j]) {
      assert forall j | 0 <= j <= k :: lines[j] == before[j];
    }
  }

  lemma EffectiveOne(lib: Parsers, raw: string)
    ensures Effective(lib, [raw]) == if Meaning(lib, raw) == Malformed then [] else [raw]
  {
    hide Meaning;
    hide Effective;
    var e := Effective(lib, [raw]);
    assert |e| == 0 ==> [raw][|e|] == raw;
    assert |e| == 1 ==> e[0] == raw;
  }

  lemma OneLine(lib: Parsers, raw: string, ip: string)
    ensures Allowed(lib, Load(lib, Effective(lib, [raw])), ip)
            <==> Meaning(lib, raw) != Malformed && Admits(lib, raw, ip)
  {
    hide Meaning;
    hide Admits;
    hide Allowed;
    hide Load;
    hide Effective;
    var e := Effective(lib, [raw]);
    EffectiveOne(lib, raw);
    LoadMeaning(lib, e, ip);
    if e == [raw] {
      assert e[0] == raw;
    }
  }

  /** A file of one range line, as it is written: it allows exactly the addresses of its block. A prefix out of range or
      a network that is no address allows nothing, and a prefix that is no number stops the load. */
  lemma RangeLine(lib: Parsers, front: string, n: string, q: string, back: string, ip: string)
    requires Spaces(front) && Spaces(back) && '/' !in n
    requires (n != [] ==> !IsSpace(n[0]) && n[0] != '#') && (q != [] ==> !IsSpace(q[|q| - 1]))
    ensures var rules := Load(lib, Effective(lib, [front + (n + "/" + q) + back]));
            Allowed(lib, rules, ip) <==> InRange(lib, n, q, ip)
    ensures Effective(lib, [front + (n + "/" + q) + back]) == [] <==> lib.number(q).None?
  {
    hide Meaning;
    hide Admits;
    hide InRange;
    hide Allowed;
    var raw := front + (n + "/" + q) + back;
    var text := n + "/" + q;
    assert text[0] == (if n == [] then '/' else n[0]) && text[|text| - 1] == (if q == [] then '/' else q[|q| - 1]);
    assert IsText(raw, front, text, back);
    RangeMeaning(lib, raw, front, n, q, back);
    EffectiveOne(lib, raw);
    OneLine(lib, raw, ip);
    if lib.number(q).None? {
      NoNumber(lib, n, q, ip);
    }
  }

  lemma NoNumber(lib: Parsers, n: string, q: string, ip: string)
    requires lib.number(q).None?
    ensures !InRange(lib, n, q, ip)
  {
  }

  /** A file of one other line: an address allows itself, a blank line or a comment nothing. */
  lemma PlainLine(lib: Parsers, front: string, text: string, back: string, ip: string)
    requires IsText(front + text + back, front, text, back) && (IsComment(text) || '/' !in text)
    ensures Effective(lib, [front + text + back]) == [front + text + back]
    ensures Allowed(lib, Load(lib, Effective(lib, [front + text + back])), ip) <==> !IsComment(text) && ip == text
  {
    hide Allowed;
    var raw := front + text + back;
    EffectiveOne(lib, raw);
    OneLine(lib, raw, ip);
    if IsComment(text) {
      CommentMeaning(lib, raw, front, text, back);
    } else {
      ExactMeaning(lib, raw, front, text, back);
      ExactAdmits(lib, raw, text);
    }
  }

  // ---------------------------------------------------------------- the object

  class IpValidator {
    const lib: Parsers
    var exactSet: set<string>
    var cidrs: seq<Cidr>

    ghost function Fields(): Rules
      reads this
    {
      Rules(exactSet, cidrs)
    }

    constructor (lib: Parsers)
      ensures this.lib == lib && Fields() == Rules({}, [])
    {
      this.lib, exactSet, cidrs := lib, {}, [];
    }

    /** Loads the lines of the file, or None when it cannot be opened. False stands for the exception; what was loaded
        before it stays in force. */
    method LoadConfig(file: Option<seq<string>>) returns (ok: bool)
      modifies this
      ensures file.None? ==> !ok && Fields() == Rules({}, [])
      ensures file.Some? ==>
                && Fields() == Load(lib, Effective(lib, file.value))
                && (ok <==> Effective(lib, file.value) == file.value)
      ensures file.Some? ==>
                && (ok <==> forall k | 0 <= k < |file.value| :: !LineStops(lib, file.value[k]))
                && (forall ip :: Allowed(lib, Fields(), ip) <==> FileAdmits(lib, file.value, ip))
    {
      hide Meaning;
      hide MakeCidr;
      hide Effective;
      hide LineStops;
      hide FileAdmits;
      hide Allowed;
      exactSet, cidrs := {}, [];
      if file.None? { return false; }
      var lines := file.value;
      forall ip
        ensures Allowed(lib, Load(lib, Effective(lib, lines)), ip) <==> FileAdmits(lib, lines, ip)
        ensures Effective(lib, lines) == lines <==> forall k | 0 <= k < |lines| :: !LineStops(lib, lines[k])
      {
        AllowedExactly(lib, lines, ip);
      }
      assert Effective(lib, lines) == lines <==> forall k | 0 <= k < |lines| :: !LineStops(lib, lines[k]) by {
        AllowedExactly(lib, lines, "");
      }
      for i := 0 to |lines|
        invariant Fields() == Load(lib, lines[..i])
        invariant forall k | 0 <= k < i :: Meaning(lib, lines[k]) != Malformed
      {
        assert lines[..i + 1][..i] == lines[..i];
        var rule := Meaning(lib, lines[i]);
        match rule {
          case Malformed =>
            EffectiveUpTo(lib, lines, i);
            return false;
          case Range(net, prefix) => cidrs := cidrs + [MakeCidr(net, prefix)];
          case Exact(line) => exactSet := exactSet + {line};
          case Skip =>
        }
      }
      assert lines[..|lines|] == lines;
      assert Effective(lib, lines) == lines;
      ok := true;
    }

    method MatchesCidr(addr: u32) returns (found: bool)
      ensures found <==> MatchesAny(cidrs, addr)
    {
      for i := 0 to |cidrs|
        invariant forall k | 0 <= k < i :: !Matches(cidrs[k], addr)
      {
        if And(addr, cidrs[i].mask) == cidrs[i].network {
          assert Matches(cidrs[i], addr);
          return true;
        }
      }
      return false;
    }

    method IsAllowed(ip: string) returns (ok: bool)
      ensures ok <==> Allowed(lib, Fields(), ip)
    {
      if ip in exactSet { return true; }
      var addr := lib.ipv4(ip);
      if addr.Some? {
        var found := MatchesCidr(addr.value);
        if found { return true; }
      }
      return false;
    }
  }
}
