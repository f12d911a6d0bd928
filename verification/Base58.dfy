/** Base58 text and the pairing codes made from it. */
module Base58 {
  import opened Basics
  import opened Numerals

  // The alphabet is six runs of consecutive characters: 0, I, O and l are left out.
  const NINE := "123456789"
  const A_TO_H := "ABCDEFGH"
  const J_TO_N := "JKLMN"
  const P_TO_Z := "PQRSTUVWXYZ"
  const LOWER_A_TO_K := "abcdefghijk"
  const LOWER_M_TO_Z := "mnopqrstuvwxyz"
  const ALPHABET := NINE + A_TO_H + J_TO_N + P_TO_Z + LOWER_A_TO_K + LOWER_M_TO_Z

  lemma Runs()
    ensures |NINE| == 9 && |A_TO_H| == 8 && |J_TO_N| == 5 && |P_TO_Z| == 11 && |LOWER_A_TO_K| == 11 && |LOWER_M_TO_Z| == 14
    ensures |ALPHABET| == 58
  {
  }

  function CharOf(d: nat): char
    requires d < 58
  {
    Runs();
    ALPHABET[d]
  }

  /** Position of `c` in the alphabet, run by run. */
  function IndexOf(c: char): (i: Option<nat>)
    ensures i.Some? ==> i.value < 58
  {
    if '1' <= c <= '9' then Some((c - '1') as nat)
    else if 'A' <= c <= 'H' then Some((c - 'A') as nat + 9)
    else if 'J' <= c <= 'N' then Some((c - 'J') as nat + 17)
    else if 'P' <= c <= 'Z' then Some((c - 'P') as nat + 22)
    else if 'a' <= c <= 'k' then Some((c - 'a') as nat + 33)
    else if 'm' <= c <= 'z' then Some((c - 'm') as nat + 44)
    else None
  }

  /** The alphabet by its runs. */
  function CharByRun(d: nat): char
    requires d < 58
  {
    if d < 9 then '1' + d as char
    else if d < 17 then 'A' + (d - 9) as char
    else if d < 22 then 'J' + (d - 17) as char
    else if d < 33 then 'P' + (d - 22) as char
    else if d < 44 then 'a' + (d - 33) as char
    else 'm' + (d - 44) as char
  }

  lemma UpperRuns(d: nat)
    requires d < 33
    ensures CharOf(d) == CharByRun(d)
  {
    Runs();
    if d < 9 { assert ALPHABET[d] == NINE[d]; }
    else if d < 17 { assert ALPHABET[d] == A_TO_H[d - 9]; }
    else if d < 22 { assert ALPHABET[d] == J_TO_N[d - 17]; }
    else { assert ALPHABET[d] == P_TO_Z[d - 22]; }
  }

  lemma LowerRuns(d: nat)
    requires 33 <= d < 58
    ensures CharOf(d) == CharByRun(d)
  {
    Runs();
    if d < 44 { assert ALPHABET[d] == LOWER_A_TO_K[d - 33]; }
    else { assert ALPHABET[d] == LOWER_M_TO_Z[d - 44]; }
  }

  lemma IndexByRun(d: nat, c: char)
    requires d < 58
    ensures IndexOf(c) == Some(d) <==> c == CharByRun(d)
  {
  }

  /** The alphabet has no repeated character, and nothing outside it has a position. */
  lemma IndexIsInverse(d: nat, c: char)
    requires d < 58
    ensures IndexOf(CharOf(d)) == Some(d) && (IndexOf(c) == Some(d) <==> c == CharOf(d))
  {
    var e := CharOf(d);
    if d < 33 { UpperRuns(d); } else { LowerRuns(d); }
    IndexByRun(d, e);
    IndexByRun(d, c);
  }

  // ---------------------------------------------------------------------------------------------
  // Text and digits
  // ---------------------------------------------------------------------------------------------

  type Byte = x: nat | x < 256

  predicate ValidText(s: string) {
    forall i :: 0 <= i < |s| ==> IndexOf(s[i]).Some?
  }

  function Read(s: string): (ds: seq<nat>)
    requires ValidText(s)
    ensures |ds| == |s| && IsNumeral(58, ds)
  {
    seq(|s|, i requires 0 <= i < |s| => IndexOf(s[i]).value)
  }

  function Text(ds: seq<nat>): (s: string)
    requires IsNumeral(58, ds)
    ensures |s| == |ds|
  {
    seq(|ds|, i requires 0 <= i < |ds| => CharOf(ds[i]))
  }

  lemma ReadText(ds: seq<nat>)
    requires IsNumeral(58, ds)
    ensures ValidText(Text(ds)) && Read(Text(ds)) == ds
  {
    forall i | 0 <= i < |ds| ensures IndexOf(Text(ds)[i]) == Some(ds[i]) { IndexIsInverse(ds[i], '1'); }
  }

  lemma TextRead(s: string)
    requires ValidText(s)
    ensures Text(Read(s)) == s
  {
    forall i | 0 <= i < |s| ensures CharOf(Read(s)[i]) == s[i] { IndexIsInverse(Read(s)[i], s[i]); }
  }

  lemma BytesAreNumeral(data: seq<Byte>)
    ensures IsNumeral(256, data)
  {
  }

  function AsBytes(ds: seq<nat>): (data: seq<Byte>)
    requires IsNumeral(256, ds)
    ensures data == ds
  {
    seq(|ds|, i requires 0 <= i < |ds| => ds[i] as Byte)
  }

  /** The base58 text of some bytes: one leading '1' for each leading zero byte. */
  function Encoded(data: seq<Byte>): string {
    ConvertFacts(256, 58, data);
    Text(Convert(256, 58, data))
  }

  function Decoded(s: string): Option<seq<Byte>> {
    if !ValidText(s) then None
    else
      ConvertFacts(58, 256, Read(s));
      Some(AsBytes(Convert(58, 256, Read(s))))
  }

  /** Decoding what was encoded gives the same bytes, leading zeros included. */
  lemma DecodeOfEncode(data: seq<Byte>)
    ensures Decoded(Encoded(data)) == Some(data)
  {
    ConvertFacts(256, 58, data);
    ReadText(Convert(256, 58, data));
    ConvertRoundTrip(256, 58, data);
  }

  /** Encoding what was decoded gives the same text; decoding fails exactly on a foreign character. */
  lemma EncodeOfDecode(s: string)
    ensures Decoded(s).None? <==> exists c :: c in s && IndexOf(c).None?
    ensures Decoded(s).Some? ==> Encoded(Decoded(s).value) == s
  {
    if ValidText(s) {
      ConvertFacts(58, 256, Read(s));
      ConvertRoundTrip(58, 256, Read(s));
      TextRead(s);
    } else {
      var i :| 0 <= i < |s| && IndexOf(s[i]).None?;
      assert s[i] in s;
    }
  }

  // ---------------------------------------------------------------------------------------------
  // The loops
  // ---------------------------------------------------------------------------------------------

  method Reverse(s: string) returns (r: string)
    ensures r == Backwards(s)
  {
    r := s;
    var i, j := 0, |s| - 1;
    while i < j
      invariant 0 <= i && i + j == |s| - 1 && |r| == |s| && i <= j + 1
      invariant forall k :: 0 <= k < i || j < k < |s| ==> r[k] == s[|s| - 1 - k]
      invariant forall k :: i <= k <= j ==> r[k] == s[k]
    {
      var a, b := r[i], r[j];
      r := r[i := b];
      r := r[j := a];
      i, j := i + 1, j - 1;
    }
  }

  lemma BackwardsAppend(ds: seq<nat>, d: nat)
    ensures Backwards(ds + [d]) == [d] + Backwards(ds)
  {
  }

  /** The text `r` spells the digits `ds`, which are those of `es` from the last to the first. */
  ghost predicate Spells(r: string, ds: seq<nat>, es: seq<nat>) {
    IsNumeral(58, ds) && r == Text(ds) && es == Backwards(ds)
  }

  lemma SpellNext(r: string, ds: seq<nat>, es: seq<nat>, d: nat)
    requires Spells(r, ds, es) && d < 58
    ensures Spells(r + [CharOf(d)], ds + [d], [d] + es)
  {
    BackwardsAppend(ds, d);
    assert Text(ds + [d]) == Text(ds) + [CharOf(d)];
  }

  lemma SpellBackwards(r: string, ds: seq<nat>, es: seq<nat>)
    requires Spells(r, ds, es)
    ensures IsNumeral(58, es) && Backwards(r) == Text(es)
  {
  }

  /** The digits of `value`, least significant first. */
  method SpellDigits(value: nat) returns (result: string, ghost ds: seq<nat>, ghost es: seq<nat>)
    ensures Spells(result, ds, es) && es == Digits(58, value)
  {
    var n := value;
    result, ds, es := "", [], [];
    while n > 0
      invariant Spells(result, ds, es) && Digits(58, value) == Digits(58, n) + es
      decreases n
    {
      Smaller(n, 58);
      SpellNext(result, ds, es, n % 58);
      assert Digits(58, n) + es == Digits(58, n / 58) + ([n % 58] + es);
      result := result + [CharOf(n % 58)];
      ds, es := ds + [n % 58], [n % 58] + es;
      n := n / 58;
    }
  }

  /** A '1' for each leading zero byte, after the digits. */
  method SpellZeros(data: seq<Byte>, digits: string, ghost ds0: seq<nat>, ghost es0: seq<nat>)
    returns (result: string, ghost ds: seq<nat>, ghost es: seq<nat>)
    requires Spells(digits, ds0, es0)
    ensures Spells(result, ds, es) && es == Zeros(LeadingZeros(data)) + es0
  {
    result, ds, es := digits, ds0, es0;
    var i := 0;
    UpperRuns(0);
    while i < |data| && data[i] == 0
      invariant 0 <= i <= |data| && LeadingZeros(data) == i + LeadingZeros(data[i..])
      invariant Spells(result, ds, es) && es == Zeros(i) + es0
    {
      SpellNext(result, ds, es, 0);
      OneMoreZero(i, es0);
      assert data[i..][1..] == data[i + 1..];
      result := result + ['1'];
      ds, es := ds + [0], [0] + es;
      i := i + 1;
    }
  }

  method Encode(data: seq<Byte>) returns (s: string)
    ensures s == Encoded(data)
  {
    ghost var ds, es;
    var result;
    ConvertFacts(256, 58, data);
    result, ds, es := SpellDigits(Val(256, data));
    result, ds, es := SpellZeros(data, result, ds, es);
    SpellBackwards(result, ds, es);
    s := Reverse(result);
  }

  /** The value of a text, or None at the first foreign character. */
  method ReadValue(s: string) returns (n: Option<nat>)
    ensures n == if ValidText(s) then Some(Val(58, Read(s))) else None
  {
    var v := 0;
    for i := 0 to |s|
      invariant ValidText(s[..i]) && v == Val(58, Read(s[..i]))
    {
      var idx := IndexOf(s[i]);
      if idx.None? { return None; }
      assert Read(s[..i + 1])[..i] == Read(s[..i]);
      v := v * 58 + idx.value;
    }
    assert s[..|s|] == s;
    n := Some(v);
  }

  lemma OneIsZero(s: string, i: nat)
    requires ValidText(s) && i < |s|
    ensures s[i] == '1' <==> Read(s)[i] == 0
  {
    IndexIsInverse(0, s[i]);
    UpperRuns(0);
  }

  lemma OneMoreZero(i: nat, rest: seq<nat>)
    ensures [0] + (Zeros(i) + rest) == Zeros(i + 1) + rest
  {
    ZerosFront(i);
  }

  /** Prepends a zero byte for each leading '1'. */
  method RestoreZeros(s: string, bytes: seq<nat>) returns (result: seq<nat>)
    requires ValidText(s)
    ensures result == Zeros(LeadingZeros(Read(s))) + bytes
  {
    result := bytes;
    ghost var ds := Read(s);
    var i := 0;
    while i < |s| && s[i] == '1'
      invariant 0 <= i <= |s| && LeadingZeros(ds) == i + LeadingZeros(ds[i..])
      invariant result == Zeros(i) + bytes
    {
      OneIsZero(s, i);
      OneMoreZero(i, bytes);
      assert ds[i..][1..] == ds[i + 1..];
      result := [0] + result;
      i := i + 1;
    }
    if i < |s| { OneIsZero(s, i); }
  }

  method Decode(s: string) returns (data: Option<seq<Byte>>)
    ensures data == Decoded(s)
  {
    var n := ReadValue(s);
    if n.None? { return None; }
    ConvertFacts(58, 256, Read(s));
    var result := RestoreZeros(s, Digits(256, n.value));
    data := Some(AsBytes(result));
  }

  // ---------------------------------------------------------------------------------------------
  // Pairing codes
  // ---------------------------------------------------------------------------------------------

  const CODE_DIGITS: nat := 13
  const DATA_BYTES: nat := 9

  type Port = x: nat | x < 65536

  /** Copies at most `n` bytes of `src` into a zeroed buffer of `n`. */
  function Copied(src: seq<Byte>, n: nat): (r: seq<Byte>)
    ensures |r| == n
  {
    seq(n, i => if 0 <= i < |src| then src[i] else 0)
  }

  /** The nine bytes of a code: address (all zero when there is no IPv4 one), port, secret. */
  function Packed(ip: Option<seq<Byte>>, port: Port, secret: seq<Byte>): (buf: seq<Byte>)
    requires ip.Some? ==> |ip.value| == 4
    ensures |buf| == DATA_BYTES
  {
    (if ip.Some? then ip.value else [0, 0, 0, 0]) + [port / 256, port % 256] + Copied(secret, 3)
  }

  function Padded(s: string): string {
    if |s| >= CODE_DIGITS then s else Ones(CODE_DIGITS - |s|) + s
  }

  function Ones(n: nat): (r: string)
    ensures |r| == n && forall i :: 0 <= i < n ==> r[i] == '1'
  {
    if n == 0 then "" else "1" + Ones(n - 1)
  }

  method EncodeFixed(data: seq<Byte>) returns (s: string)
    ensures s == Padded(Encoded(data))
  {
    s := Encode(data);
    while |s| < CODE_DIGITS
      invariant Padded(s) == Padded(Encoded(data))
      decreases CODE_DIGITS - |s|
    {
      OnesBack(CODE_DIGITS - |s| - 1, s);
      s := "1" + s;
    }
  }

  lemma {:induction false} OnesBack(n: nat, s: string)
    ensures Ones(n + 1) + s == Ones(n) + ("1" + s)
  {
    if n == 0 {
      assert Ones(1) == "1" && Ones(0) == "";
    } else {
      OnesBack(n - 1, s);
      assert Ones(n + 1) + s == "1" + (Ones(n) + s);
      assert Ones(n) + ("1" + s) == "1" + (Ones(n - 1) + ("1" + s));
    }
  }

  /** XXXX-XXXX-XXXXX. */
  function Formatted(raw: string): string {
    if |raw| < CODE_DIGITS then raw else raw[..4] + "-" + raw[4..8] + "-" + raw[8..13]
  }

  predicate IsSeparator(c: char) { c == '-' || c == '/' || c == ' ' || c == '\t' }

  function Cleaned(code: string): string {
    if code == "" then "" else (if IsSeparator(code[0]) then "" else [code[0]]) + Cleaned(code[1..])
  }

  method EncodePairingCode(ip: Option<seq<Byte>>, port: Port, secret: seq<Byte>) returns (code: string)
    requires ip.Some? ==> |ip.value| == 4
    ensures code == Formatted(Padded(Encoded(Packed(ip, port, secret))))
  {
    var ip4: seq<Byte> := if ip.Some? then ip.value else [0, 0, 0, 0];
    var buf := ip4 + [port / 256, port % 256] + Copied(secret, 3);
    var raw := EncodeFixed(buf);
    code := Formatted(raw);
  }

  datatype Pairing = Pairing(ip: seq<Byte>, port: Port, secret: seq<Byte>)

  /** A code is refused for a foreign character or a value of more than 72 bits, not for its length. */
  predicate Acceptable(code: string) {
    ValidText(Cleaned(code)) && Val(58, Read(Cleaned(code))) < Pow(256, DATA_BYTES)
  }

  function Filled(n: nat): (data: seq<Byte>)
    requires n < Pow(256, DATA_BYTES)
    ensures |data| == DATA_BYTES
  {
    FewDigits(256, n, DATA_BYTES);
    ValOfDigits(256, n);
    AsBytes(Zeros(DATA_BYTES - |Digits(256, n)|) + Digits(256, n))
  }

  function Unpacked(data: seq<Byte>): Pairing
    requires |data| == DATA_BYTES
  {
    var high: nat, low: nat := data[4], data[5];
    var port := high * 256 + low;
    Pairing(data[..4], port, data[6..])
  }

  method DecodePairingCode(code: string) returns (r: Option<Pairing>)
    ensures r.Some? <==> Acceptable(code)
    ensures r.Some? ==> r.value == Unpacked(Filled(Val(58, Read(Cleaned(code)))))
  {
    var n := ReadValue(Cleaned(code));
    if n.None? { return None; }
    if n.value >= Pow(256, DATA_BYTES) { return None; }
    r := Some(Unpacked(Filled(n.value)));
  }

  lemma FilledIsUnique(data: seq<Byte>)
    requires |data| == DATA_BYTES
    ensures Val(256, data) < Pow(256, DATA_BYTES) && Filled(Val(256, data)) == data
  {
    BytesAreNumeral(data);
    ValBound(256, data);
    var n := Val(256, data);
    FilledValue(n);
    BytesAreNumeral(Filled(n));
    ValInjective(256, Filled(n), data);
  }

  /** A byte string of m bytes needs at most m + 4 digits, up to nine bytes. */
  lemma PowersFit(m: nat)
    requires m <= DATA_BYTES
    ensures Pow(256, m) <= Pow(58, m + 4)
  {
    if m <= 4 {
      assert Pow(256, 4) == 4294967296 && Pow(58, 4) == 11316496;
      if m == 4 { assert Pow(58, 8) == 128063081718016; }
    } else {
      assert Pow(256, 9) == 4722366482869645213696 && Pow(58, 13) == 84055070416556869132288;
    }
  }

  lemma CodeLength(data: seq<Byte>)
    requires |data| == DATA_BYTES
    ensures |Encoded(data)| <= CODE_DIGITS
  {
    var z := LeadingZeros(data);
    BytesAreNumeral(data);
    Trim(data);
    ValPadded(256, z, data[z..]);
    BytesAreNumeral(data[z..]);
    ValBound(256, data[z..]);
    PowersFit(DATA_BYTES - z);
    FewDigits(58, Val(256, data), CODE_DIGITS - z);
  }

  lemma {:induction false} ReadOnes(n: nat, s: string)
    requires ValidText(s)
    ensures ValidText(Ones(n) + s) && Read(Ones(n) + s) == Zeros(n) + Read(s)
  {
    forall i | 0 <= i < n ensures IndexOf((Ones(n) + s)[i]) == Some(0) { assert (Ones(n) + s)[i] == '1'; }
    assert forall i :: n <= i < n + |s| ==> (Ones(n) + s)[i] == s[i - n];
  }

  /** A code has exactly thirteen digits, and they spell the value of the nine bytes. */
  lemma CodeValue(data: seq<Byte>)
    requires |data| == DATA_BYTES
    ensures var raw := Padded(Encoded(data));
            |raw| == CODE_DIGITS && ValidText(raw) && Val(58, Read(raw)) == Val(256, data)
  {
    CodeLength(data);
    BytesAreNumeral(data);
    ConvertFacts(256, 58, data);
    var ds := Convert(256, 58, data);
    ReadText(ds);
    var k := CODE_DIGITS - |Encoded(data)|;
    ReadOnes(k, Encoded(data));
    ValPadded(58, k, ds);
    if k == 0 { assert Ones(0) + Encoded(data) == Encoded(data); }
  }

  lemma {:induction false} CleanedConcat(a: string, b: string)
    ensures Cleaned(a + b) == Cleaned(a) + Cleaned(b)
  {
    if a == "" {
      assert a + b == b;
    } else {
      assert (a + b)[1..] == a[1..] + b;
      CleanedConcat(a[1..], b);
    }
  }

  lemma {:induction false} ValidIsClean(s: string)
    requires ValidText(s)
    ensures Cleaned(s) == s
  {
    if s != "" {
      assert IndexOf(s[0]).Some? && forall i :: 0 <= i < |s| - 1 ==> s[1..][i] == s[i + 1];
      ValidIsClean(s[1..]);
    }
  }

  lemma SeparatorBetween(a: string, d: string, b: string)
    requires |d| == 1 && IsSeparator(d[0])
    ensures Cleaned(a + d + b) == Cleaned(a) + Cleaned(b)
  {
    CleanedConcat(a + d, b);
    CleanedConcat(a, d);
    SeparatorAlone(d);
  }

  lemma SeparatorAlone(d: string)
    requires |d| == 1 && IsSeparator(d[0])
    ensures Cleaned(d) == ""
  {
    assert d[1..] == "";
  }

  lemma CleanedFormatted(raw: string)
    requires |raw| == CODE_DIGITS && ValidText(raw)
    ensures Cleaned(Formatted(raw)) == raw
  {
    var a, b, c := raw[..4], raw[4..8], raw[8..13];
    Joined(a, b, c);
    assert raw == a + b + c;
  }

  lemma Joined(a: string, b: string, c: string)
    requires ValidText(a) && ValidText(b) && ValidText(c)
    ensures Cleaned(a + "-" + b + "-" + c) == a + b + c
  {
    ValidIsClean(a);
    ValidIsClean(b);
    ValidIsClean(c);
    SeparatorBetween(a + "-" + b, "-", c);
    SeparatorBetween(a, "-", b);
  }

  /**
   * For every address, port and secret: the code is thirteen digits with two dashes, and decoding it
   * gives the address (0.0.0.0 when there was none), the port, and the first three secret bytes.
   */
  lemma PairingRoundTrip(ip: Option<seq<Byte>>, port: Port, secret: seq<Byte>)
    requires ip.Some? ==> |ip.value| == 4
    ensures var code := Formatted(Padded(Encoded(Packed(ip, port, secret))));
            && |Cleaned(code)| == CODE_DIGITS && |code| == CODE_DIGITS + 2 && Acceptable(code)
            && Unpacked(Filled(Val(58, Read(Cleaned(code)))))
               == Pairing(if ip.Some? then ip.value else [0, 0, 0, 0], port, Copied(secret, 3))
  {
    var data := Packed(ip, port, secret);
    CodeValue(data);
    CleanedFormatted(Padded(Encoded(data)));
    FilledIsUnique(data);
    assert data[..4] == if ip.Some? then ip.value else [0, 0, 0, 0];
    assert data[6..] == Copied(secret, 3);
  }

  /** Dashes stand after the fourth and the eighth digit and nowhere else; the digits keep their order. */
  lemma DashesInPlace(ip: Option<seq<Byte>>, port: Port, secret: seq<Byte>)
    requires ip.Some? ==> |ip.value| == 4
    ensures var raw := Padded(Encoded(Packed(ip, port, secret)));
            var code := Formatted(raw);
            && |code| == 15 && code[4] == '-' && code[9] == '-'
            && (forall i :: 0 <= i < 15 && i != 4 && i != 9 ==>
                  code[i] == raw[if i < 4 then i else if i < 9 then i - 1 else i - 2] && IndexOf(code[i]).Some?)
  {
    var raw := Padded(Encoded(Packed(ip, port, secret)));
    CodeValue(Packed(ip, port, secret));
    hide Padded, Encoded, Packed, Formatted;
    FormattedDashes(raw);
  }

  lemma FormattedDashes(raw: string)
    requires |raw| == CODE_DIGITS
    ensures var code := Formatted(raw);
            && |code| == 15 && code[4] == '-' && code[9] == '-'
            && forall i :: 0 <= i < 15 && i != 4 && i != 9 ==> code[i] == raw[if i < 4 then i else if i < 9 then i - 1 else i - 2]
  {
  }

  /** Encoding what a thirteen-digit code decodes to gives that code back, with its dashes in place. */
  lemma PairingInverse(code: string)
    requires Acceptable(code) && |Cleaned(code)| == CODE_DIGITS
    ensures var p := Unpacked(Filled(Val(58, Read(Cleaned(code)))));
            Formatted(Padded(Encoded(Packed(Some(p.ip), p.port, p.secret)))) == Formatted(Cleaned(code))
  {
    var n := Val(58, Read(Cleaned(code)));
    var data := Filled(n);
    var p := Unpacked(data);
    FilledValue(n);
    Repacked(data);
    CodeValue(data);
    var raw := Padded(Encoded(data));
    ValInjective(58, Read(raw), Read(Cleaned(code)));
    TextRead(raw);
    TextRead(Cleaned(code));
  }

  lemma FilledValue(n: nat)
    requires n < Pow(256, DATA_BYTES)
    ensures Val(256, Filled(n)) == n
  {
    FewDigits(256, n, DATA_BYTES);
    ValOfDigits(256, n);
    ValPadded(256, DATA_BYTES - |Digits(256, n)|, Digits(256, n));
  }

  lemma Repacked(data: seq<Byte>)
    requires |data| == DATA_BYTES
    ensures var p := Unpacked(data); |p.ip| == 4 && Packed(Some(p.ip), p.port, p.secret) == data
  {
    var p := Unpacked(data);
    assert Copied(data[6..], 3) == data[6..];
    assert data == data[..4] + [data[4], data[5]] + data[6..];
  }
}
