/** `is_valid_ip` of the command line program: a recogniser that reads the string once,
    compared with a grammar. */
module IpAddress {
  import opened Std

  predicate IsDigit(c: char) {
    '0' <= c <= '9'
  }

  /** The groups that a dot ends, and the last one. */
  datatype Scan = Scan(closed: seq<string>, last: string)

  function ScanOf(s: string): Scan {
    if s == [] then Scan([], [])
    else
      var before := ScanOf(Init(s));
      if Last(s) == '.' then Scan(before.closed + [before.last], [])
      else Scan(before.closed, before.last + [Last(s)])
  }

  /** The groups between the dots, the dots left out. */
  function Split(s: string): seq<string> {
    ScanOf(s).closed + [ScanOf(s).last]
  }

  function Join(groups: seq<string>): string
    requires groups != []
  {
    if |groups| == 1 then groups[0] else Join(Init(groups)) + "." + Last(groups)
  }

  /** Splitting is cutting at the dots: no group has one, and joined they are the string. */
  lemma {:induction false} SplitJoins(s: string)
    ensures Join(Split(s)) == s && forall g | g in Split(s) :: '.' !in g
  {
    if s != [] {
      SplitJoins(Init(s));
      var before := ScanOf(Init(s));
      JoinLast(before.closed, before.last, Last(s));
      assert before.last in Split(Init(s));
      if Last(s) == '.' {
        assert Join(Split(s)) == Init(s) + ".";
      } else {
        assert Join(Split(s)) == Init(s) + [Last(s)];
      }
    }
  }

  lemma JoinLast(closed: seq<string>, last: string, c: char)
    ensures Join(closed + [last + [c]]) == Join(closed + [last]) + [c]
    ensures Join(closed + [last] + [[]]) == Join(closed + [last]) + "."
  {
    InitLast(closed, last);
    InitLast(closed, last + [c]);
    InitLast(closed + [last], []);
    if closed == [] {
      assert closed + [last] == [last] && closed + [last + [c]] == [last + [c]];
    } else {
      assert Join(closed) + "." + (last + [c]) == Join(closed) + "." + last + [c];
    }
  }

  predicate Digits(g: string) {
    forall i | 0 <= i < |g| :: IsDigit(g[i])
  }

  function Value(g: string): int {
    if g == [] then 0 else 10 * Value(Init(g)) + (Last(g) as int - '0' as int)
  }

  /** One number of a dotted address, as the code checks it before a dot. */
  predicate Octet(g: string) {
    1 <= |g| <= 3 && Digits(g) && Value(g) <= 255
  }

  /** What comes after the last dot may also be nothing. */
  predicate LastOctet(g: string) {
    |g| <= 3 && Digits(g) && Value(g) <= 255
  }

  predicate AllOctets(gs: seq<string>) {
    forall i | 0 <= i < |gs| :: Octet(gs[i])
  }

  predicate Grammar(s: string) {
    |Split(s)| == 4 && AllOctets(Split(s)[..3]) && LastOctet(Split(s)[3])
  }

  /** The groups before the last, all octets, and a last one still being read. */
  predicate SoFar(s: string) {
    var scan := ScanOf(s);
    && AllOctets(scan.closed)
    && |scan.last| <= 3 && Digits(scan.last)
  }

  lemma {:induction false} ValueIsNatural(g: string)
    requires Digits(g)
    ensures Value(g) >= 0
  {
    if g != [] {
      ValueIsNatural(Init(g));
    }
  }

  /** A string that has gone wrong stays wrong. */
  lemma {:induction false} WrongStaysWrong(s: string, k: nat)
    requires k <= |s| && !SoFar(s[..k])
    ensures !SoFar(s)
    decreases |s| - k
  {
    if k == |s| {
      assert s[..k] == s;
    } else {
      OneMore(s[..k], s[k]);
      assert s[..k + 1] == s[..k] + [s[k]];
      WrongStaysWrong(s, k + 1);
    }
  }

  /** What one more character makes of a prefix. */
  lemma OneMore(s: string, c: char)
    ensures SoFar(s + [c]) <==>
            SoFar(s) && (if c == '.' then Octet(ScanOf(s).last) else IsDigit(c) && |ScanOf(s).last| < 3)
  {
    InitLast(s, c);
    if c == '.' {
      OctetsAppend(ScanOf(s).closed, ScanOf(s).last);
    } else {
      DigitsAppend(ScanOf(s).last, c);
    }
  }

  lemma OctetsAppend(gs: seq<string>, g: string)
    ensures AllOctets(gs + [g]) <==> AllOctets(gs) && Octet(g)
  {
    assert (gs + [g])[|gs|] == g;
    assert forall i | 0 <= i < |gs| :: (gs + [g])[i] == gs[i];
  }

  lemma DigitsAppend(g: string, c: char)
    ensures Digits(g + [c]) <==> Digits(g) && IsDigit(c)
  {
    assert (g + [c])[|g|] == c;
    assert forall i | 0 <= i < |g| :: (g + [c])[i] == g[i];
  }

  lemma GrammarOfScan(s: string)
    ensures Grammar(s) <==> SoFar(s) && |ScanOf(s).closed| == 3 && Value(ScanOf(s).last) <= 255
  {
    if |ScanOf(s).closed| == 3 {
      assert Split(s)[..3] == ScanOf(s).closed && Split(s)[3] == ScanOf(s).last;
    }
  }

  /** The counters of the recogniser, said about the prefix it has read. */
  predicate Counters(s: string, dots: int, num: int, count: int) {
    SoFar(s) && dots == |ScanOf(s).closed| && count == |ScanOf(s).last| && num == Value(ScanOf(s).last)
  }

  lemma ReadDot(ip: string, i: nat, dots: int, num: int, count: int)
    requires i < |ip| && ip[i] == '.' && Counters(ip[..i], dots, num, count)
    ensures num >= 0
    ensures if count == 0 || num > 255 then !Grammar(ip) else Counters(ip[..i + 1], dots + 1, 0, 0)
  {
    Read(ip, i);
    ValueIsNatural(ScanOf(ip[..i]).last);
  }

  lemma ReadDigit(ip: string, i: nat, dots: int, num: int, count: int)
    requires i < |ip| && IsDigit(ip[i]) && Counters(ip[..i], dots, num, count)
    ensures if count + 1 > 3 then !Grammar(ip)
            else Counters(ip[..i + 1], dots, num * 10 + (ip[i] as int - '0' as int), count + 1)
  {
    Read(ip, i);
    InitLast(ScanOf(ip[..i]).last, ip[i]);
  }

  lemma ReadOther(ip: string, i: nat)
    requires i < |ip| && ip[i] != '.' && !IsDigit(ip[i])
    ensures !Grammar(ip)
  {
    Read(ip, i);
  }

  lemma Read(ip: string, i: nat)
    requires i < |ip|
    ensures ip[..i + 1] == ip[..i] + [ip[i]] && Init(ip[..i + 1]) == ip[..i] && Last(ip[..i + 1]) == ip[i]
    ensures SoFar(ip[..i + 1]) <==>
            SoFar(ip[..i]) && (if ip[i] == '.' then Octet(ScanOf(ip[..i]).last) else IsDigit(ip[i]) && |ScanOf(ip[..i]).last| < 3)
    ensures !SoFar(ip[..i + 1]) ==> !Grammar(ip)
  {
    assert ip[..i + 1] == ip[..i] + [ip[i]];
    OneMore(ip[..i], ip[i]);
    GrammarOfScan(ip);
    if !SoFar(ip[..i + 1]) {
      WrongStaysWrong(ip, i + 1);
    }
  }

  /** The recogniser accepts exactly the grammar. */
  method IsValidIp(ip: string) returns (valid: bool)
    ensures valid <==> Grammar(ip)
  {
    var dots, num, count := 0, 0, 0;
    for i := 0 to |ip|
      invariant Counters(ip[..i], dots, num, count)
    {
      var ch := ip[i];
      if ch == '.' {
        ReadDot(ip, i, dots, num, count);
        if count == 0 || num < 0 || num > 255 {
          return false;
        }
        dots := dots + 1;
        num := 0;
        count := 0;
      } else if IsDigit(ch) {
        ReadDigit(ip, i, dots, num, count);
        num := num * 10 + (ch as int - '0' as int);
        count := count + 1;
        if count > 3 {
          return false;
        }
      } else {
        ReadOther(ip, i);
        return false;
      }
    }
    assert ip[..|ip|] == ip;
    ValueIsNatural(ScanOf(ip).last);
    GrammarOfScan(ip);
    if dots != 3 {
      return false;
    }
    if num < 0 || num > 255 {
      return false;
    }
    return true;
  }

  /** Dotted decimal with four numbers, each of one to three digits and at most 255. */
  predicate DottedQuad(s: string) {
    |Split(s)| == 4 && AllOctets(Split(s))
  }

  /** The accepted strings that do not end with a dot are the dotted quads; a trailing dot
      in place of the last number is accepted as well. */
  lemma AcceptedIsQuadIff(s: string)
    ensures DottedQuad(s) <==> Grammar(s) && s != [] && Last(s) != '.'
  {
    var scan := ScanOf(s);
    OctetsAppend(scan.closed, scan.last);
    if |scan.closed| == 3 {
      assert Split(s)[..3] == scan.closed && Split(s)[3] == scan.last;
    }
  }

  /** So three numbers with a dot after each, as in `1.2.3.`, are accepted, and are no
      dotted quad. */
  lemma TrailingDotAccepted(a: char, b: char, c: char)
    requires IsDigit(a) && IsDigit(b) && IsDigit(c)
    ensures var s := [a, '.', b, '.', c, '.'];
            Grammar(s) && !DottedQuad(s)
  {
    assert ScanOf([]) == Scan([], []);
    var one := Numbered([], a, []);
    var two := Numbered(one, b, [[a]]);
    var three := Numbered(two, c, [[a], [b]]);
    assert three == [a, '.', b, '.', c, '.'];
    assert [[a], [b]] + [[c]] == [[a], [b], [c]];
    assert Split(three)[..3] == [[a], [b], [c]];
    AcceptedIsQuadIff(three);
  }

  /** A digit and a dot after a string that ends with a dot. */
  lemma Numbered(s: string, c: char, groups: seq<string>) returns (t: string)
    requires ScanOf(s) == Scan(groups, []) && IsDigit(c)
    ensures t == s + [c, '.'] && ScanOf(t) == Scan(groups + [[c]], []) && Octet([c])
  {
    t := s + [c] + ['.'];
    InitLast(s, c);
    InitLast(s + [c], '.');
    assert Init([c]) == [] && [] + [c] == [c];
    assert ScanOf(s + [c]) == Scan(groups, [c]);
    assert t == s + [c, '.'];
  }

  // ---- writing an address ----

  /** A number in decimal. */
  function Decimal(v: nat): (g: string)
    ensures g != []
  {
    (if v < 10 then [] else Decimal(v / 10)) + [('0' as int + v % 10) as char]
  }

  lemma DigitAppended(g: string, d: nat)
    requires d < 10 && Digits(g) && '.' !in g
    ensures var c := ('0' as int + d) as char;
            Digits(g + [c]) && Value(g + [c]) == 10 * Value(g) + d && '.' !in g + [c]
  {
    var c := ('0' as int + d) as char;
    InitLast(g, c);
    DigitsAppend(g, c);
  }

  /** What is written as a number is read as that number. */
  lemma {:induction false} DecimalIsRead(v: nat)
    ensures Digits(Decimal(v)) && Value(Decimal(v)) == v && '.' !in Decimal(v)
  {
    var tens := if v < 10 then [] else Decimal(v / 10);
    if v >= 10 {
      DecimalIsRead(v / 10);
    }
    DigitAppended(tens, v % 10);
    assert v == 10 * (v / 10) + v % 10;
  }

  lemma DecimalIsOctet(v: nat)
    requires v <= 255
    ensures Octet(Decimal(v)) && '.' !in Decimal(v)
  {
    DecimalIsRead(v);
    OneDigit(v / 100);
    TwoDigits(v / 10);
    assert v >= 10 ==> |Decimal(v)| == |Decimal(v / 10)| + 1;
  }

  lemma OneDigit(v: nat)
    requires v < 10
    ensures |Decimal(v)| == 1
  {
  }

  lemma TwoDigits(v: nat)
    requires v < 100
    ensures |Decimal(v)| <= 2
  {
    OneDigit(v / 10);
  }

  /** Splitting undoes joining, if no group has a dot. */
  lemma {:induction false} JoinSplits(gs: seq<string>)
    requires gs != [] && forall g | g in gs :: '.' !in g
    ensures Split(Join(gs)) == gs
  {
    var before, g := Init(gs), Last(gs);
    assert g in gs;
    if before == [] {
      assert gs == [g];
      ScanGroup([], Scan([], []), g);
      assert [] + g == g;
    } else {
      JoinSplits(before);
      var s := Join(before);
      InitLast(s, '.');
      assert s + "." == s + ['.'];
      ScanGroup(s + ".", Scan(before, []), g);
      assert [] + g == g && before + [g] == gs;
    }
  }

  lemma {:induction false} ScanGroup(s: string, scan: Scan, g: string)
    requires ScanOf(s) == scan && '.' !in g
    ensures ScanOf(s + g) == Scan(scan.closed, scan.last + g)
  {
    if g == [] {
      assert s + g == s && scan.last + g == scan.last;
    } else {
      ScanGroup(s, scan, Init(g));
      assert Last(g) in g;
      InitLast(s + Init(g), Last(g));
      assert s + g == s + Init(g) + [Last(g)];
      assert scan.last + g == scan.last + Init(g) + [Last(g)];
    }
  }

  /** Every address is accepted: four numbers up to 255, written in decimal with dots in
      between, are read back as those numbers. */
  lemma AddressIsAccepted(vs: seq<nat>)
    requires |vs| == 4 && forall i | 0 <= i < 4 :: vs[i] <= 255
    ensures var s := Join(Written(vs));
            && Grammar(s) && DottedQuad(s)
            && forall i | 0 <= i < 4 :: Value(Split(s)[i]) == vs[i]
  {
    var gs := Written(vs);
    forall i | 0 <= i < 4
      ensures Octet(gs[i]) && '.' !in gs[i] && Value(gs[i]) == vs[i]
    {
      DecimalIsOctet(vs[i]);
      DecimalIsRead(vs[i]);
    }
    JoinSplits(gs);
    AcceptedIsQuadIff(Join(gs));
  }

  function Written(vs: seq<nat>): (gs: seq<string>)
    ensures |gs| == |vs|
  {
    seq(|vs|, i requires 0 <= i < |vs| => Decimal(vs[i]))
  }
}
