/** The text operations behind the peer-info line: splitting, decimal numbers, dotted addresses, host:port. */
module Text {
  import opened Bytes

  // ----- Splitting -----

  function IndexOf(s: string, c: char): (i: nat)
    requires c in s
    ensures i < |s| && s[i] == c && c !in s[..i]
  {
    if s[0] == c then 0
    else
      var i := IndexOf(s[1..], c) + 1;
      assert s[..i] == [s[0]] + s[1..][..i - 1];
      i
  }

  /** `strings.Split` by a single character. */
  function Split(s: string, c: char): (parts: seq<string>)
    ensures |parts| >= 1
    decreases |s|
  {
    if c !in s then [s]
    else
      var i := IndexOf(s, c);
      [s[..i]] + Split(s[i + 1..], c)
  }

  lemma SplitFirst(a: string, c: char, rest: string)
    requires c !in a
    ensures Split(a + [c] + rest, c) == [a] + Split(rest, c)
  {
    var s := a + [c] + rest;
    assert s[|a|] == c;
    assert forall k | 0 <= k < |a| :: s[k] == a[k];
    assert s[..|a|] == a && s[|a| + 1..] == rest;
  }

  // ----- Decimal numbers -----

  predicate IsDigit(c: char) {
    '0' <= c <= '9'
  }

  predicate AllDigits(s: string) {
    forall i | 0 <= i < |s| :: IsDigit(s[i])
  }

  function Digit(n: nat): char
    requires n < 10
  {
    ('0' as int + n) as char
  }

  function Value(c: char): int {
    c as int - '0' as int
  }

  function Dec(n: nat): (s: string)
    ensures s != "" && AllDigits(s)
  {
    if n < 10 then [Digit(n)] else Dec(n / 10) + [Digit(n % 10)]
  }

  function DecValue(s: string): int
  {
    if s == "" then 0 else DecValue(s[..|s| - 1]) * 10 + Value(s[|s| - 1])
  }

  lemma {:induction false} DecRoundTrip(n: nat)
    ensures DecValue(Dec(n)) == n
  {
    if n < 10 {
      assert [Digit(n)][..0] == "";
    } else {
      DecRoundTrip(n / 10);
      assert Dec(n)[..|Dec(n)| - 1] == Dec(n / 10);
    }
  }

  /** `strconv.Atoi` for numbers in range. */
  function Atoi(s: string): Option<int> {
    var signed := s != "" && (s[0] == '-' || s[0] == '+');
    var digits := if signed then s[1..] else s;
    if digits == "" || !AllDigits(digits) then None
    else Some(if signed && s[0] == '-' then -DecValue(digits) else DecValue(digits))
  }

  function DigitPrefix(s: string): (n: nat)
    ensures n <= |s| && (AllDigits(s) ==> n == |s|)
  {
    if s == "" || !IsDigit(s[0]) then 0 else 1 + DigitPrefix(s[1..])
  }

  /** `fmt.Sscanf("%d")` without leading space: a sign and the longest run of digits; the rest is ignored. */
  function ScanInt(s: string): Option<int> {
    var signed := s != "" && (s[0] == '-' || s[0] == '+');
    var rest := if signed then s[1..] else s;
    var digits := rest[..DigitPrefix(rest)];
    if digits == "" then None
    else Some(if signed && s[0] == '-' then -DecValue(digits) else DecValue(digits))
  }

  /** Both readers give a printed number back. */
  lemma PrintedNumberReads(n: nat)
    ensures Atoi(Dec(n)) == Some(n) && ScanInt(Dec(n)) == Some(n)
  {
    DecRoundTrip(n);
    var s := Dec(n);
    assert IsDigit(s[0]);
    assert s[..|s|] == s;
  }

  lemma {:induction false} PrefixOf(digits: string, rest: string)
    requires AllDigits(digits) && (rest == "" || !IsDigit(rest[0]))
    ensures DigitPrefix(digits + rest) == |digits|
  {
    if digits == "" {
      assert digits + rest == rest;
    } else {
      assert (digits + rest)[1..] == digits[1..] + rest;
      PrefixOf(digits[1..], rest);
    }
  }

  /** Scanning takes the digits and ignores what follows; conversion refuses anything that follows. */
  lemma ScanReads(n: nat, rest: string)
    requires rest == "" || !IsDigit(rest[0])
    ensures ScanInt(Dec(n) + rest) == Some(n)
    ensures rest != "" ==> Atoi(Dec(n) + rest) == None
  {
    var s := Dec(n) + rest;
    DecRoundTrip(n);
    PrefixOf(Dec(n), rest);
    assert IsDigit(s[0]) && s[..|Dec(n)|] == Dec(n);
    if rest != "" {
      assert !IsDigit(s[|Dec(n)|]);
    }
  }

  /** Both take a sign. */
  lemma SignedScan(sign: char, digits: string, rest: string)
    requires (sign == '+' || sign == '-') && digits != "" && AllDigits(digits) && (rest == "" || !IsDigit(rest[0]))
    ensures ScanInt([sign] + (digits + rest)) == Some(if sign == '-' then -DecValue(digits) else DecValue(digits))
  {
    PrefixOf(digits, rest);
    assert ([sign] + (digits + rest))[1..] == digits + rest && (digits + rest)[..|digits|] == digits;
    ScanBehindSign([sign] + (digits + rest), digits + rest, digits);
  }

  lemma ScanBehindSign(s: string, body: string, digits: string)
    requires s != "" && (s[0] == '+' || s[0] == '-') && s[1..] == body && digits != ""
    requires DigitPrefix(body) == |digits| && body[..|digits|] == digits
    ensures ScanInt(s) == Some(if s[0] == '-' then -DecValue(digits) else DecValue(digits))
  {
  }

  lemma SignedAtoi(sign: char, digits: string)
    requires (sign == '+' || sign == '-') && digits != "" && AllDigits(digits)
    ensures Atoi([sign] + digits) == Some(if sign == '-' then -DecValue(digits) else DecValue(digits))
  {
    assert ([sign] + digits)[1..] == digits;
  }

  /** Conversion reads an optional sign and digits, and nothing else. */
  lemma AtoiIs(s: string)
    ensures var signed := s != "" && (s[0] == '+' || s[0] == '-');
            var digits := if signed then s[1..] else s;
            Atoi(s) == if digits == "" || (exists k | 0 <= k < |digits| :: !('0' <= digits[k] <= '9')) then None
                       else Some(if signed && s[0] == '-' then -DecValue(digits) else DecValue(digits))
  {
  }

  /** Without a digit, or a sign and a digit, at its start there is no number. */
  lemma ScanNeedsDigit(s: string)
    requires s == "" || (!IsDigit(s[0]) && (s[0] in "+-" ==> |s| == 1 || !IsDigit(s[1])))
    ensures ScanInt(s) == None && Atoi(s) == None
  {
  }

  lemma DigitsLack(n: nat, c: char)
    requires !IsDigit(c)
    ensures c !in Dec(n)
  {
    assert AllDigits(Dec(n));
  }

  // ----- Dotted addresses -----

  type IPv4 = a: seq<byte> | |a| == 4 witness [0, 0, 0, 0]

  function Dotted(ip: IPv4): string {
    Dec(ip[0]) + "." + (Dec(ip[1]) + "." + (Dec(ip[2]) + "." + Dec(ip[3])))
  }

  /** An octet as `net.ParseIP` takes it: digits only, no leading zero, at most 255. */
  function ParseOctet(s: string): Option<byte> {
    if s == "" || !AllDigits(s) || (|s| > 1 && s[0] == '0') || !(0 <= DecValue(s) <= 255) then None
    else Some(DecValue(s))
  }

  /** `net.ParseIP` on dotted IPv4 text. */
  function ParseIP(s: string): Option<IPv4> {
    var parts := Split(s, '.');
    if |parts| != 4 then None
    else
      var a, b, c, d := ParseOctet(parts[0]), ParseOctet(parts[1]), ParseOctet(parts[2]), ParseOctet(parts[3]);
      if a.None? || b.None? || c.None? || d.None? then None
      else Some([a.value, b.value, c.value, d.value])
  }

  lemma OctetRoundTrip(b: byte)
    ensures ParseOctet(Dec(b)) == Some(b)
  {
    DecRoundTrip(b);
    NoLeadingZero(b);
  }

  lemma {:induction false} NoLeadingZero(n: nat)
    ensures n > 0 ==> Dec(n)[0] != '0'
    ensures n < 10 ==> |Dec(n)| == 1
  {
    if n >= 10 {
      NoLeadingZero(n / 10);
      assert Dec(n)[0] == Dec(n / 10)[0];
    }
  }

  lemma DottedParts(ip: IPv4)
    ensures Split(Dotted(ip), '.') == [Dec(ip[0]), Dec(ip[1]), Dec(ip[2]), Dec(ip[3])]
  {
    DigitsLack(ip[0], '.');
    DigitsLack(ip[1], '.');
    DigitsLack(ip[2], '.');
    DigitsLack(ip[3], '.');
    FourParts(Dec(ip[0]), Dec(ip[1]), Dec(ip[2]), Dec(ip[3]), '.');
  }

  lemma FourParts(a: string, b: string, c: string, d: string, sep: char)
    requires sep !in a && sep !in b && sep !in c && sep !in d
    ensures Split(a + [sep] + (b + [sep] + (c + [sep] + d)), sep) == [a, b, c, d]
  {
    SplitFirst(a, sep, b + [sep] + (c + [sep] + d));
    ThreeParts(b, c, d, sep);
  }

  lemma ThreeParts(b: string, c: string, d: string, sep: char)
    requires sep !in b && sep !in c && sep !in d
    ensures Split(b + [sep] + (c + [sep] + d), sep) == [b, c, d]
  {
    SplitFirst(b, sep, c + [sep] + d);
    SplitFirst(c, sep, d);
  }

  lemma DottedRoundTrip(ip: IPv4)
    ensures ParseIP(Dotted(ip)) == Some(ip)
  {
    DottedParts(ip);
    OctetRoundTrip(ip[0]);
    OctetRoundTrip(ip[1]);
    OctetRoundTrip(ip[2]);
    OctetRoundTrip(ip[3]);
    FourOctets(Dotted(ip), [Dec(ip[0]), Dec(ip[1]), Dec(ip[2]), Dec(ip[3])], ip);
  }

  lemma FourOctets(s: string, parts: seq<string>, ip: IPv4)
    requires |parts| == 4 && Split(s, '.') == parts && forall i | 0 <= i < 4 :: ParseOctet(parts[i]) == Some(ip[i])
    ensures ParseIP(s) == Some(ip)
  {
    assert ip == [ip[0], ip[1], ip[2], ip[3]];
  }

  /** The inverse of splitting. */
  function Join(parts: seq<string>, c: char): string
    requires parts != []
  {
    if |parts| == 1 then parts[0] else parts[0] + [c] + Join(parts[1..], c)
  }

  lemma {:induction false} JoinSplit(s: string, c: char)
    ensures Join(Split(s, c), c) == s
    decreases |s|
  {
    if c in s {
      var i := IndexOf(s, c);
      JoinSplit(s[i + 1..], c);
      assert s == s[..i] + [c] + s[i + 1..];
    }
  }

  lemma {:induction false} DigitsSpell(s: string)
    requires s != "" && AllDigits(s) && (|s| == 1 || s[0] != '0')
    ensures DecValue(s) >= 0 && Dec(DecValue(s)) == s && (s[0] != '0' ==> DecValue(s) > 0)
  {
    var n := |s| - 1;
    var init, last := s[..n], s[n];
    assert IsDigit(last) && s == init + [last];
    if n > 0 {
      assert init[0] == s[0];
      DigitsSpell(init);
      assert DecValue(s) / 10 == DecValue(init) && DecValue(s) % 10 == Value(last);
      assert Dec(DecValue(s)) == Dec(DecValue(init)) + [Digit(Value(last))];
    }
  }

  lemma OctetSpells(s: string)
    requires ParseOctet(s).Some?
    ensures s == Dec(ParseOctet(s).value)
  {
    DigitsSpell(s);
  }

  /** Text is taken for an address if and only if it is that address printed. */
  lemma DottedIff(s: string, ip: IPv4)
    ensures ParseIP(s) == Some(ip) <==> s == Dotted(ip)
  {
    DottedRoundTrip(ip);
    if ParseIP(s) == Some(ip) {
      var parts := Split(s, '.');
      OctetSpells(parts[0]);
      OctetSpells(parts[1]);
      OctetSpells(parts[2]);
      OctetSpells(parts[3]);
      JoinSplit(s, '.');
      FourJoined(parts, '.');
    }
  }

  lemma FourJoined(parts: seq<string>, c: char)
    requires |parts| == 4
    ensures Join(parts, c) == parts[0] + [c] + (parts[1] + [c] + (parts[2] + [c] + parts[3]))
  {
    assert parts[1..][1..] == parts[2..] && parts[2..][1..] == parts[3..];
    assert Join(parts[3..], c) == parts[3];
    assert Join(parts[2..], c) == parts[2] + [c] + parts[3];
    assert Join(parts[1..], c) == parts[1] + [c] + Join(parts[2..], c);
  }

  lemma DottedLacks(ip: IPv4, c: char)
    requires !IsDigit(c) && c != '.'
    ensures c !in Dotted(ip)
  {
    DigitsLack(ip[0], c);
    DigitsLack(ip[1], c);
    DigitsLack(ip[2], c);
    DigitsLack(ip[3], c);
  }

  // ----- host:port -----

  function LastIndexOf(s: string, c: char): (i: int)
    ensures -1 <= i < |s| && (i >= 0 ==> s[i] == c) && forall j | i < j < |s| :: s[j] != c
  {
    if s == "" then -1 else if s[|s| - 1] == c then |s| - 1 else LastIndexOf(s[..|s| - 1], c)
  }

  /** `net.SplitHostPort` for hosts without brackets. */
  function SplitHostPort(s: string): Option<(string, string)> {
    var i := LastIndexOf(s, ':');
    if i < 0 || ':' in s[..i] || '[' in s || ']' in s then None else Some((s[..i], s[i + 1..]))
  }

  lemma HostPortRoundTrip(host: string, port: string)
    requires ':' !in host && ':' !in port && '[' !in host + port && ']' !in host + port
    ensures SplitHostPort(host + ":" + port) == Some((host, port))
  {
    var s := host + ":" + port;
    assert s[|host|] == ':';
    assert forall k | 0 <= k < |port| :: s[|host| + 1 + k] == port[k];
    assert s[..|host|] == host && s[|host| + 1..] == port;
    assert forall c | c in s :: c in host || c == ':' || c in port;
  }
}
