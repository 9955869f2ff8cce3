/** The common name of a client certificate, parsed from an RFC 4514 subject. */
module DistinguishedName {
  import opened Domain

  const NUL: char := '\0'

  /** Replace every escaped comma by NUL, left to right. */
  function MaskEscapes(s: string): string {
    if s == [] then []
    else if |s| >= 2 && s[0] == '\\' && s[1] == ',' then [NUL] + MaskEscapes(s[2..])
    else [s[0]] + MaskEscapes(s[1..])
  }

  /** Replace every NUL by a comma. */
  function Unmask(s: string): string {
    if s == [] then []
    else if s[0] == NUL then "," + Unmask(s[1..])
    else [s[0]] + Unmask(s[1..])
  }

  /** Split at commas; the result is never empty. */
  function SplitAtCommas(s: string): (parts: seq<string>)
    ensures parts != []
  {
    if s == [] then [""]
    else
      var rest := SplitAtCommas(s[1..]);
      if s[0] == ',' then [""] + rest else [[s[0]] + rest[0]] + rest[1..]
  }

  /** The characters that strings.TrimSpace removes. */
  predicate IsSpace(c: char) {
    || '\t' <= c <= '\r' || c == ' '
    || c == '\U{0085}' || c == '\U{00A0}' || c == '\U{1680}'
    || '\U{2000}' <= c <= '\U{200A}' || c == '\U{2028}' || c == '\U{2029}'
    || c == '\U{202F}' || c == '\U{205F}' || c == '\U{3000}'
  }

  function TrimRight(s: string): string {
    if s != [] && IsSpace(s[|s| - 1]) then TrimRight(s[..|s| - 1]) else s
  }

  function TrimLeft(s: string): string {
    if s != [] && IsSpace(s[0]) then TrimLeft(s[1..]) else s
  }

  const CN_PREFIX: string := "CN="

  /** The common name in one part of the split subject, if it holds one. */
  function CommonNameIn(part: string): Option<string> {
    var t := TrimRight(TrimLeft(Unmask(part)));
    if CN_PREFIX <= t then Some(t[|CN_PREFIX|..]) else None
  }

  function FindCommonName(parts: seq<string>): Option<string> {
    if parts == [] then None
    else if CommonNameIn(parts[0]).Some? then CommonNameIn(parts[0])
    else FindCommonName(parts[1..])
  }

  /** What parseCN returns: the first common name, or the subject itself if there is none. */
  function CommonName(subject: string): string {
    match FindCommonName(SplitAtCommas(MaskEscapes(subject)))
    case Some(cn) => cn
    case None => subject
  }

  method ParseCN(subject: string) returns (cn: string)
    ensures cn == CommonName(subject)
  {
    var parts := SplitAtCommas(MaskEscapes(subject));
    for i := 0 to |parts|
      invariant FindCommonName(parts) == FindCommonName(parts[i..])
    {
      var part := TrimRight(TrimLeft(Unmask(parts[i])));
      assert parts[i..][1..] == parts[i + 1..];
      if CN_PREFIX <= part {
        return part[|CN_PREFIX|..];
      }
    }
    return subject;
  }

  // ------------------------------------------------------------ printing

  datatype Rdn = Rdn(kind: string, value: string)

  predicate Special(c: char) {
    c == ',' || c == '+' || c == '"' || c == '\\' || c == '<' || c == '>' || c == ';'
  }

  /** The characters that section 2.4 of RFC 4514 escapes with a backslash, by their place in the value. */
  predicate MustEscape(v: string, i: nat)
    requires i < |v|
  {
    Special(v[i]) || (v[i] == ' ' && (i == 0 || i == |v| - 1)) || (v[i] == '#' && i == 0)
  }

  /** How character i of a value is printed; NUL is escaped in hexadecimal. */
  function Piece(v: string, i: nat): string
    requires i < |v|
  {
    if v[i] == NUL then "\\00" else if MustEscape(v, i) then ['\\', v[i]] else [v[i]]
  }

  function EscapeFrom(v: string, i: nat): string
    requires i <= |v|
    decreases |v| - i
  {
    if i == |v| then "" else Piece(v, i) + EscapeFrom(v, i + 1)
  }

  function PrintOne(r: Rdn): string {
    (r.kind + "=") + EscapeFrom(r.value, 0)
  }

  function Print(names: seq<Rdn>): string {
    if names == [] then ""
    else if |names| == 1 then PrintOne(names[0])
    else PrintOne(names[0]) + ("," + Print(names[1..]))
  }

  /** Attribute types are plain words; about values nothing is asked. */
  predicate PlainKind(r: Rdn) {
    forall c :: c in r.kind ==> c != ',' && c != '\\' && c != NUL && c != '=' && !IsSpace(c)
  }

  predicate AllPlain(names: seq<Rdn>) {
    forall i :: 0 <= i < |names| ==> PlainKind(names[i])
  }

  /** Such a value prints as an escaped backslash before the separator, which is then taken for escaped. */
  predicate EndsInBackslash(v: string) {
    v != [] && v[|v| - 1] == '\\'
  }

  // ------------------------------------------------------------ what parseCN makes of a value

  /** Commas come back and all other escapes stay. */
  function ShownPiece(v: string, i: nat): string
    requires i < |v|
  {
    if v[i] == ',' then "," else Piece(v, i)
  }

  function ShownFrom(v: string, i: nat): string
    requires i <= |v|
    decreases |v| - i
  {
    if i == |v| then "" else ShownPiece(v, i) + ShownFrom(v, i + 1)
  }

  /** A value that ends in a backslash, together with the separator it swallows. */
  function ShownTorn(v: string, i: nat): string
    requires i < |v|
    decreases |v| - i
  {
    if i == |v| - 1 then "\\," else ShownPiece(v, i) + ShownTorn(v, i + 1)
  }

  /** The text after the attribute type: the value, and every RDN that a swallowed separator joins to it. */
  function ShownGroup(names: seq<Rdn>): string
    requires names != []
  {
    var v := names[0].value;
    if |names| > 1 && EndsInBackslash(v)
    then ShownTorn(v, 0) + ((names[1].kind + "=") + ShownGroup(names[1..]))
    else ShownFrom(v, 0)
  }

  /**
   * The rest of the list from the first CN that stands at the beginning of a part: one whose
   * predecessor does not end in a backslash. Empty if there is none.
   */
  function FromVisibleCN(names: seq<Rdn>, hidden: bool): seq<Rdn> {
    if names == [] then []
    else if !hidden && names[0].kind == "CN" then names
    else FromVisibleCN(names[1..], EndsInBackslash(names[0].value))
  }

  /** No character but commas is escaped, so the value is shown as it is. */
  predicate CleanFrom(v: string, i: nat) {
    forall j :: i <= j < |v| ==> v[j] != NUL && (MustEscape(v, j) ==> v[j] == ',')
  }

  /** The values that come back exactly. */
  predicate Returnable(v: string) {
    CleanFrom(v, 0) && (v == [] || !IsSpace(v[|v| - 1]))
  }

  lemma {:induction false} ShownLength(v: string, i: nat)
    requires i <= |v|
    ensures |ShownFrom(v, i)| >= |v| - i
    decreases |v| - i
  {
    if i < |v| {
      ShownLength(v, i + 1);
    }
  }

  lemma CleanStep(v: string, i: nat)
    requires i < |v|
    ensures CleanFrom(v, i) <==> CleanFrom(v, i + 1) && v[i] != NUL && (MustEscape(v, i) ==> v[i] == ',')
  {
  }

  lemma {:induction false} ShownIsValueIff(v: string, i: nat)
    requires i <= |v|
    ensures ShownFrom(v, i) == v[i..] <==> CleanFrom(v, i)
    decreases |v| - i
  {
    if i < |v| {
      ShownIsValueIff(v, i + 1);
      CleanStep(v, i);
      var rest := ShownFrom(v, i + 1);
      assert v[i..] == [v[i]] + v[i + 1..];
      if ShownPiece(v, i) == [v[i]] {
        assert ([v[i]] + rest)[1..] == rest && v[i..][1..] == v[i + 1..];
      } else {
        ShownLength(v, i + 1);
        assert |ShownFrom(v, i)| > |v[i..]|;
      }
    }
  }

  /** How the last character of a value is shown. */
  function ShownChar(c: char): char {
    if c == NUL then '0' else c
  }

  lemma {:induction false} ShownLast(v: string, i: nat)
    requires i < |v|
    ensures var t := ShownFrom(v, i);
            t != [] && t[|t| - 1] == ShownChar(v[|v| - 1])
    decreases |v| - i
  {
    var piece, rest := ShownPiece(v, i), ShownFrom(v, i + 1);
    if i + 1 < |v| {
      ShownLast(v, i + 1);
      LastOfConcat(piece, rest);
    } else {
      LastPiece(v, i);
      assert piece + rest == piece;
    }
  }

  lemma LastPiece(v: string, i: nat)
    requires i < |v|
    ensures var t := ShownPiece(v, i);
            t != [] && t[|t| - 1] == ShownChar(v[i])
  {
  }

  lemma LastOfConcat(a: string, b: string)
    requires b != []
    ensures |a + b| == |a| + |b| && (a + b)[|a + b| - 1] == b[|b| - 1]
  {
  }

  lemma {:induction false} TornLast(v: string, i: nat)
    requires i < |v|
    ensures var t := ShownTorn(v, i);
            |t| > |v| - i && t[|t| - 1] == ','
    decreases |v| - i
  {
    if i + 1 < |v| {
      TornLast(v, i + 1);
      PieceNonEmpty(v, i);
      LongerWithComma(ShownPiece(v, i), ShownTorn(v, i + 1), |v| - i - 1);
    } else {
      assert ShownTorn(v, i) == "\\,";
    }
  }

  lemma PieceNonEmpty(v: string, i: nat)
    requires i < |v|
    ensures |ShownPiece(v, i)| >= 1
  {
  }

  lemma LongerWithComma(a: string, b: string, n: nat)
    requires |a| >= 1 && |b| > n && b[|b| - 1] == ','
    ensures |a + b| > n + 1 && (a + b)[|a + b| - 1] == ','
  {
  }

  // ------------------------------------------------------------ masking

  function MaskedPiece(v: string, i: nat): string
    requires i < |v|
  {
    if v[i] == ',' then [NUL] else Piece(v, i)
  }

  function MaskedFrom(v: string, i: nat): string
    requires i <= |v|
    decreases |v| - i
  {
    if i == |v| then "" else MaskedPiece(v, i) + MaskedFrom(v, i + 1)
  }

  function MaskedTorn(v: string, i: nat): string
    requires i < |v|
    decreases |v| - i
  {
    if i == |v| - 1 then ['\\', NUL] else MaskedPiece(v, i) + MaskedTorn(v, i + 1)
  }

  lemma Regroup(a: string, b: string, c: string)
    ensures (a + b) + c == a + (b + c)
  {
  }

  lemma {:induction false} MaskPlainChar(c: char, rest: string)
    requires c != '\\'
    ensures MaskEscapes([c] + rest) == [c] + MaskEscapes(rest)
  {
    assert ([c] + rest)[1..] == rest;
  }

  lemma {:induction false} MaskEscapedComma(rest: string)
    ensures MaskEscapes("\\," + rest) == [NUL] + MaskEscapes(rest)
  {
    assert ("\\," + rest)[2..] == rest;
  }

  lemma {:induction false} MaskEscapesPlain(a: string, rest: string)
    requires '\\' !in a
    ensures MaskEscapes(a + rest) == a + MaskEscapes(rest)
    decreases |a|
  {
    if a == [] {
      assert a + rest == rest;
    } else {
      assert a == [a[0]] + a[1..] && a[0] in a;
      assert a + rest == [a[0]] + (a[1..] + rest);
      assert forall c :: c in a[1..] ==> c in a;
      MaskEscapesPlain(a[1..], rest);
      assert MaskEscapes(a + rest) == [a[0]] + MaskEscapes(a[1..] + rest);
      assert [a[0]] + (a[1..] + MaskEscapes(rest)) == a + MaskEscapes(rest);
    }
  }

  predicate StartsWithComma(s: string) {
    s != [] && s[0] == ','
  }

  lemma {:induction false} MaskBackslash(rest: string)
    requires !StartsWithComma(rest)
    ensures MaskEscapes("\\" + rest) == "\\" + MaskEscapes(rest)
  {
    assert ("\\" + rest)[1..] == rest;
  }

  /** Escaped text never begins with a comma. */
  lemma {:induction false} EscapeStart(v: string, i: nat, rest: string)
    requires i < |v|
    ensures !StartsWithComma(EscapeFrom(v, i) + rest)
  {
  }

  lemma {:induction false} MaskPiece(v: string, i: nat, rest: string)
    requires i < |v| && (v[i] == '\\' ==> !StartsWithComma(rest))
    ensures MaskEscapes(Piece(v, i) + rest) == MaskedPiece(v, i) + MaskEscapes(rest)
  {
    var c := v[i];
    if c == NUL {
      assert "\\00" == "\\" + "00";
      Regroup("\\", "00", rest);
      MaskBackslash("00" + rest);
      MaskEscapesPlain("00", rest);
      Regroup("\\", "00", MaskEscapes(rest));
    } else if c == ',' {
      MaskEscapedComma(rest);
    } else if MustEscape(v, i) {
      assert ['\\', c] == "\\" + [c];
      Regroup("\\", [c], rest);
      MaskBackslash([c] + rest);
      if c == '\\' {
        MaskBackslash(rest);
      } else {
        MaskPlainChar(c, rest);
      }
      Regroup("\\", [c], MaskEscapes(rest));
    } else {
      MaskPlainChar(c, rest);
    }
  }

  /** One more piece in front of text that is masked already. */
  lemma {:induction false} MaskPieceThen(v: string, i: nat, tail: string, masked: string, rest: string, left: string)
    requires i < |v| && (v[i] == '\\' ==> !StartsWithComma(tail + rest))
    requires MaskEscapes(tail + rest) == masked + MaskEscapes(left)
    ensures MaskEscapes((Piece(v, i) + tail) + rest) == (MaskedPiece(v, i) + masked) + MaskEscapes(left)
  {
    Regroup(Piece(v, i), tail, rest);
    MaskPiece(v, i, tail + rest);
    Regroup(MaskedPiece(v, i), masked, MaskEscapes(left));
  }

  /** A value is masked piece by piece, unless it ends in a backslash right before a comma. */
  lemma {:induction false} MaskValue(v: string, i: nat, rest: string)
    requires i <= |v| && (EndsInBackslash(v) ==> !StartsWithComma(rest))
    ensures MaskEscapes(EscapeFrom(v, i) + rest) == MaskedFrom(v, i) + MaskEscapes(rest)
    decreases |v| - i
  {
    if i == |v| {
      assert EscapeFrom(v, i) + rest == rest;
    } else {
      assert v[i] == '\\' ==> !StartsWithComma(EscapeFrom(v, i + 1) + rest) by {
        if i + 1 < |v| {
          EscapeStart(v, i + 1, rest);
        } else {
          assert EscapeFrom(v, i + 1) + rest == rest;
        }
      }
      MaskValue(v, i + 1, rest);
      MaskPieceThen(v, i, EscapeFrom(v, i + 1), MaskedFrom(v, i + 1), rest, rest);
    }
  }

  lemma {:induction false} MaskTornEnd(rest: string)
    ensures MaskEscapes(['\\', '\\'] + ("," + rest)) == ['\\', NUL] + MaskEscapes(rest)
  {
    assert ['\\', '\\'] + ("," + rest) == "\\" + ("\\," + rest);
    MaskBackslash("\\," + rest);
    MaskEscapedComma(rest);
    assert "\\" + ([NUL] + MaskEscapes(rest)) == ['\\', NUL] + MaskEscapes(rest);
  }

  /** A value that ends in a backslash swallows the separator after it. */
  lemma {:induction false} MaskTorn(v: string, i: nat, rest: string)
    requires i < |v| && EndsInBackslash(v)
    ensures MaskEscapes(EscapeFrom(v, i) + ("," + rest)) == MaskedTorn(v, i) + MaskEscapes(rest)
    decreases |v| - i
  {
    if i == |v| - 1 {
      assert EscapeFrom(v, i + 1) == "";
      assert EscapeFrom(v, i) == ['\\', '\\'];
      MaskTornEnd(rest);
    } else {
      MaskTorn(v, i + 1, rest);
      EscapeStart(v, i + 1, "," + rest);
      MaskPieceThen(v, i, EscapeFrom(v, i + 1), MaskedTorn(v, i + 1), "," + rest, rest);
    }
  }

  function MaskedOne(r: Rdn): string {
    (r.kind + "=") + MaskedFrom(r.value, 0)
  }

  function TornOne(r: Rdn): string
    requires r.value != []
  {
    (r.kind + "=") + MaskedTorn(r.value, 0)
  }

  lemma {:induction false} MaskOne(r: Rdn, rest: string)
    requires PlainKind(r) && (EndsInBackslash(r.value) ==> !StartsWithComma(rest))
    ensures MaskEscapes(PrintOne(r) + rest) == MaskedOne(r) + MaskEscapes(rest)
  {
    Regroup(r.kind + "=", EscapeFrom(r.value, 0), rest);
    MaskEscapesPlain(r.kind + "=", EscapeFrom(r.value, 0) + rest);
    MaskValue(r.value, 0, rest);
    Regroup(r.kind + "=", MaskedFrom(r.value, 0), MaskEscapes(rest));
  }

  lemma {:induction false} MaskTornOne(r: Rdn, rest: string)
    requires PlainKind(r) && EndsInBackslash(r.value)
    ensures MaskEscapes(PrintOne(r) + ("," + rest)) == TornOne(r) + MaskEscapes(rest)
  {
    Regroup(r.kind + "=", EscapeFrom(r.value, 0), "," + rest);
    MaskEscapesPlain(r.kind + "=", EscapeFrom(r.value, 0) + ("," + rest));
    MaskTorn(r.value, 0, rest);
    Regroup(r.kind + "=", MaskedTorn(r.value, 0), MaskEscapes(rest));
  }

  // ------------------------------------------------------------ splitting

  lemma {:induction false} SplitPlain(a: string)
    requires ',' !in a
    ensures SplitAtCommas(a) == [a]
    decreases |a|
  {
    if a != [] {
      assert a[0] in a && forall c :: c in a[1..] ==> c in a;
      SplitPlain(a[1..]);
      assert [a[0]] + a[1..] == a;
    }
  }

  lemma {:induction false} SplitFirst(a: string, rest: string)
    requires ',' !in a
    ensures SplitAtCommas(a + "," + rest) == [a] + SplitAtCommas(rest)
    decreases |a|
  {
    var s := a + "," + rest;
    if a == [] {
      assert s[1..] == rest;
    } else {
      assert a[0] in a && forall c :: c in a[1..] ==> c in a;
      SplitFirst(a[1..], rest);
      assert s[1..] == a[1..] + "," + rest;
      assert [a[0]] + a[1..] == a;
      assert ([a[1..]] + SplitAtCommas(rest))[1..] == SplitAtCommas(rest);
    }
  }

  lemma SplitChar(c: char, s: string)
    requires c != ','
    ensures SplitAtCommas([c] + s) == [[c] + SplitAtCommas(s)[0]] + SplitAtCommas(s)[1..]
  {
    assert ([c] + s)[1..] == s;
  }

  lemma FirstTwice(c: char, a: string, parts: seq<string>)
    requires parts != []
    ensures var once := [a + parts[0]] + parts[1..];
            [[c] + once[0]] + once[1..] == [([c] + a) + parts[0]] + parts[1..]
  {
    assert [c] + (a + parts[0]) == ([c] + a) + parts[0];
  }

  /** Text without a comma stays in front of the first part. */
  lemma {:induction false} SplitPrepend(a: string, rest: string)
    requires ',' !in a
    ensures SplitAtCommas(a + rest) == [a + SplitAtCommas(rest)[0]] + SplitAtCommas(rest)[1..]
    decreases |a|
  {
    var parts := SplitAtCommas(rest);
    if a == [] {
      assert a + rest == rest && a + parts[0] == parts[0];
    } else {
      assert forall c :: c in a[1..] ==> c in a;
      SplitPrepend(a[1..], rest);
      SplitChar(a[0], a[1..] + rest);
      FirstTwice(a[0], a[1..], parts);
      assert a == [a[0]] + a[1..] && a + rest == [a[0]] + (a[1..] + rest);
    }
  }

  lemma {:induction false} MaskedHasNoComma(v: string, i: nat)
    requires i <= |v|
    ensures ',' !in MaskedFrom(v, i)
    ensures i < |v| ==> ',' !in MaskedTorn(v, i)
    decreases |v| - i
  {
    if i < |v| {
      MaskedHasNoComma(v, i + 1);
      assert ',' !in MaskedPiece(v, i);
    }
  }

  lemma OneHasNoComma(r: Rdn)
    requires PlainKind(r)
    ensures ',' !in MaskedOne(r)
    ensures r.value != [] ==> ',' !in TornOne(r)
  {
    MaskedHasNoComma(r.value, 0);
  }

  /** The parts of a masked subject: one per RDN, except that a swallowed separator joins two of them. */
  function MaskedParts(names: seq<Rdn>): (parts: seq<string>)
    requires names != []
    ensures parts != []
  {
    if |names| == 1 then [MaskedOne(names[0])]
    else
      var rest := MaskedParts(names[1..]);
      if EndsInBackslash(names[0].value) then [TornOne(names[0]) + rest[0]] + rest[1..]
      else [MaskedOne(names[0])] + rest
  }

  lemma {:induction false} SplitNext(r: Rdn, rest: string)
    requires PlainKind(r)
    ensures var parts := SplitAtCommas(MaskEscapes(rest));
            SplitAtCommas(MaskEscapes(PrintOne(r) + ("," + rest)))
            == if EndsInBackslash(r.value) then [TornOne(r) + parts[0]] + parts[1..] else [MaskedOne(r)] + parts
  {
    OneHasNoComma(r);
    if EndsInBackslash(r.value) {
      MaskTornOne(r, rest);
      SplitPrepend(TornOne(r), MaskEscapes(rest));
    } else {
      MaskOne(r, "," + rest);
      MaskPlainChar(',', rest);
      Regroup(MaskedOne(r), ",", MaskEscapes(rest));
      SplitFirst(MaskedOne(r), MaskEscapes(rest));
    }
  }

  lemma SplitOne(r: Rdn)
    requires PlainKind(r)
    ensures SplitAtCommas(MaskEscapes(PrintOne(r))) == [MaskedOne(r)]
  {
    OneHasNoComma(r);
    assert PrintOne(r) + "" == PrintOne(r);
    MaskOne(r, "");
    assert MaskedOne(r) + MaskEscapes("") == MaskedOne(r);
    SplitPlain(MaskedOne(r));
  }

  /** Splitting the masked subject: no inner comma splits a value, and only a final backslash joins two RDNs. */
  lemma {:induction false} SplitPrinted(names: seq<Rdn>)
    requires names != [] && AllPlain(names)
    ensures SplitAtCommas(MaskEscapes(Print(names))) == MaskedParts(names)
    decreases |names|
  {
    if |names| == 1 {
      SplitOne(names[0]);
    } else {
      SplitPrinted(names[1..]);
      SplitNext(names[0], Print(names[1..]));
    }
  }

  // ------------------------------------------------------------ unmasking

  lemma {:induction false} UnmaskPlain(a: string, rest: string)
    requires NUL !in a
    ensures Unmask(a + rest) == a + Unmask(rest)
    decreases |a|
  {
    if a == [] {
      assert a + rest == rest;
    } else {
      assert a[0] in a && forall c :: c in a[1..] ==> c in a;
      UnmaskPlain(a[1..], rest);
      assert (a + rest)[1..] == a[1..] + rest;
      Regroup([a[0]], a[1..], Unmask(rest));
      assert [a[0]] + a[1..] == a;
    }
  }

  lemma {:induction false} UnmaskComma(rest: string)
    ensures Unmask([NUL] + rest) == "," + Unmask(rest)
  {
    assert ([NUL] + rest)[1..] == rest;
  }

  lemma {:induction false} UnmaskPiece(v: string, i: nat, rest: string)
    requires i < |v|
    ensures Unmask(MaskedPiece(v, i) + rest) == ShownPiece(v, i) + Unmask(rest)
  {
    if v[i] == ',' {
      UnmaskComma(rest);
    } else {
      UnmaskPlain(Piece(v, i), rest);
    }
  }

  lemma {:induction false} UnmaskValue(v: string, i: nat)
    requires i <= |v|
    ensures Unmask(MaskedFrom(v, i)) == ShownFrom(v, i)
    decreases |v| - i
  {
    if i < |v| {
      UnmaskPiece(v, i, MaskedFrom(v, i + 1));
      UnmaskValue(v, i + 1);
    }
  }

  lemma {:induction false} UnmaskTorn(v: string, i: nat, rest: string)
    requires i < |v|
    ensures Unmask(MaskedTorn(v, i) + rest) == ShownTorn(v, i) + Unmask(rest)
    decreases |v| - i
  {
    if i == |v| - 1 {
      assert ['\\', NUL] + rest == "\\" + ([NUL] + rest);
      UnmaskPlain("\\", [NUL] + rest);
      UnmaskComma(rest);
      assert "\\" + ("," + Unmask(rest)) == "\\," + Unmask(rest);
    } else {
      Regroup(MaskedPiece(v, i), MaskedTorn(v, i + 1), rest);
      UnmaskPiece(v, i, MaskedTorn(v, i + 1) + rest);
      UnmaskTorn(v, i + 1, rest);
      Regroup(ShownPiece(v, i), ShownTorn(v, i + 1), Unmask(rest));
    }
  }

  /** The first part, unmasked: the attribute type and the text of its group. */
  lemma {:induction false} UnmaskFirst(names: seq<Rdn>)
    requires names != [] && AllPlain(names)
    ensures Unmask(MaskedParts(names)[0]) == (names[0].kind + "=") + ShownGroup(names)
    decreases |names|
  {
    var r := names[0];
    if |names| > 1 && EndsInBackslash(r.value) {
      var next := MaskedParts(names[1..])[0];
      UnmaskFirst(names[1..]);
      Regroup(r.kind + "=", MaskedTorn(r.value, 0), next);
      UnmaskPlain(r.kind + "=", MaskedTorn(r.value, 0) + next);
      UnmaskTorn(r.value, 0, next);
    } else {
      UnmaskPlain(r.kind + "=", MaskedFrom(r.value, 0));
      UnmaskValue(r.value, 0);
    }
  }

  // ------------------------------------------------------------ finding the common name

  lemma {:induction false} TrimRightLast(s: string, c: char)
    ensures TrimRight(s + [c]) == if IsSpace(c) then TrimRight(s) else s + [c]
  {
    assert (s + [c])[..|s|] == s;
  }

  lemma {:induction false} UnmaskLast(s: string, c: char)
    requires c != NUL
    ensures Unmask(s + [c]) == Unmask(s) + [c]
    decreases |s|
  {
    if s == [] {
      assert Unmask([c]) == [c] + Unmask([]);
    } else {
      assert (s + [c])[1..] == s[1..] + [c];
      UnmaskLast(s[1..], c);
    }
  }

  lemma {:induction false} TrimLeftLast(s: string, c: char)
    requires IsSpace(c)
    ensures TrimLeft(s + [c]) == if TrimLeft(s) == "" then "" else TrimLeft(s) + [c]
    decreases |s|
  {
    if s == [] {
      assert [c][1..] == "";
      assert s + [c] == [c];
    } else {
      assert (s + [c])[1..] == s[1..] + [c];
      TrimLeftLast(s[1..], c);
    }
  }

  /** Space around a part, as after the commas of other printers, makes no difference. */
  lemma {:induction false} SpaceIsIgnored(part: string, c: char)
    requires IsSpace(c)
    ensures CommonNameIn([c] + part) == CommonNameIn(part)
    ensures CommonNameIn(part + [c]) == CommonNameIn(part)
  {
    var u := Unmask(part);
    assert ([c] + part)[1..] == part;
    assert Unmask([c] + part) == [c] + u;
    assert ([c] + u)[1..] == u;
    UnmaskLast(part, c);
    TrimLeftLast(u, c);
    TrimRightLast(TrimLeft(u), c);
  }

  lemma {:induction false} TrimRightKeeps(a: string, v: string)
    requires a != [] && !IsSpace(a[|a| - 1])
    ensures TrimRight(a + v) == a + TrimRight(v)
    decreases |v|
  {
    if v == [] {
      assert a + v == a;
    } else {
      var init, c := v[..|v| - 1], v[|v| - 1];
      assert v == init + [c];
      Regroup(a, init, [c]);
      TrimRightLast(a + init, c);
      TrimRightKeeps(a, init);
    }
  }

  lemma PrefixMeansCN(kind: string, tail: string)
    requires '=' !in kind
    ensures CN_PREFIX <= kind + "=" + tail <==> kind == "CN"
  {
    var s := kind + "=" + tail;
    assert s[|kind|] == '=';
    assert forall i :: 0 <= i < |kind| ==> s[i] == kind[i] && s[i] in kind;
    if CN_PREFIX <= s {
      assert s[0] == 'C' && s[1] == 'N' && s[2] == '=';
      assert |kind| == 2;
    }
  }

  /** A part yields a common name exactly when the RDN at its beginning is a CN. */
  lemma {:induction false} CommonNameOfGroup(names: seq<Rdn>)
    requires names != [] && AllPlain(names)
    ensures CommonNameIn(MaskedParts(names)[0])
         == if names[0].kind == "CN" then Some(TrimRight(ShownGroup(names))) else None
  {
    var kind, text := names[0].kind, ShownGroup(names);
    UnmaskFirst(names);
    var t := (kind + "=") + text;
    assert PlainKind(names[0]);
    assert t[0] == if kind == [] then '=' else kind[0];
    assert kind != [] ==> kind[0] in kind;
    assert TrimLeft(t) == t;
    TrimRightKeeps(kind + "=", text);
    PrefixMeansCN(kind, TrimRight(text));
  }

  /** The parts after the first: the rest of the list, whose head is hidden if the separator was swallowed. */
  lemma {:induction false} LaterParts(names: seq<Rdn>)
    requires names != []
    ensures MaskedParts(names)[1..] ==
            if |names| == 1 then []
            else if EndsInBackslash(names[0].value) then MaskedParts(names[1..])[1..]
            else MaskedParts(names[1..])
  {
  }

  lemma {:induction false} FindInParts(names: seq<Rdn>, hidden: bool)
    requires names != [] && AllPlain(names)
    ensures var parts, found := MaskedParts(names), FromVisibleCN(names, hidden);
            FindCommonName(if hidden then parts[1..] else parts)
            == if found == [] then None else Some(TrimRight(ShownGroup(found)))
    decreases |names|
  {
    if hidden || names[0].kind != "CN" {
      LaterParts(names);
      if |names| > 1 {
        FindInParts(names[1..], EndsInBackslash(names[0].value));
      } else {
        assert names[1..] == [];
      }
    }
    if !hidden {
      CommonNameOfGroup(names);
    }
  }

  lemma EmptySubject()
    ensures CommonName("") == ""
  {
    assert SplitAtCommas("") == [""] && CommonNameIn("") == None;
    assert [""][1..] == [];
  }

  lemma {:induction false} TrimRightShorter(v: string)
    ensures |TrimRight(v)| <= |v|
    ensures TrimRight(v) == v <==> v == [] || !IsSpace(v[|v| - 1])
    ensures TrimRight(v) == [] || !IsSpace(TrimRight(v)[|TrimRight(v)| - 1])
    decreases |v|
  {
    if v != [] && IsSpace(v[|v| - 1]) {
      TrimRightShorter(v[..|v| - 1]);
    }
  }

  lemma {:induction false} TornIsLonger(v: string, rest: string)
    requires EndsInBackslash(v)
    ensures |TrimRight(ShownTorn(v, 0) + rest)| > |v| && !Returnable(v)
  {
    TornLast(v, 0);
    TrimRightKeeps(ShownTorn(v, 0), rest);
    assert MustEscape(v, |v| - 1);
  }

  lemma {:induction false} ShownIsReturnedIff(v: string)
    ensures TrimRight(ShownFrom(v, 0)) == v <==> Returnable(v)
  {
    ShownIsValueIff(v, 0);
    assert v[0..] == v;
    TrimRightShorter(ShownFrom(v, 0));
    if v != [] {
      ShownLast(v, 0);
    }
  }

  /** The text shown for a group is the value of its first RDN exactly for returnable values. */
  lemma {:induction false} GroupIsValueIff(names: seq<Rdn>)
    requires names != []
    ensures TrimRight(ShownGroup(names)) == names[0].value <==> Returnable(names[0].value)
  {
    var v := names[0].value;
    if |names| > 1 && EndsInBackslash(v) {
      TornIsLonger(v, (names[1].kind + "=") + ShownGroup(names[1..]));
    } else {
      ShownIsReturnedIff(v);
    }
  }

  /**
   * What parseCN makes of any printed subject, whatever its values contain. It finds the first CN whose
   * predecessor does not end in a backslash, and returns its text without trailing spaces: exactly its
   * value if and only if that ends in no space and needs no escape but for commas. A comma inside
   * another value never yields a false CN. Without such a CN it returns the subject.
   */
  lemma {:induction false} ParseUndoesPrint(names: seq<Rdn>)
    requires AllPlain(names)
    ensures var found := FromVisibleCN(names, false);
            if found == [] then CommonName(Print(names)) == Print(names)
            else && CommonName(Print(names)) == TrimRight(ShownGroup(found))
                 && (CommonName(Print(names)) == found[0].value <==> Returnable(found[0].value))
  {
    if names == [] {
      EmptySubject();
    } else {
      SplitPrinted(names);
      FindInParts(names, false);
      if FromVisibleCN(names, false) != [] {
        GroupIsValueIff(FromVisibleCN(names, false));
      }
    }
  }

  /** The first CN of a list is the one that is found if and only if its predecessor does not hide it. */
  lemma {:induction false} FirstCommonName(before: seq<Rdn>, cn: Rdn, after: seq<Rdn>, hidden: bool)
    requires cn.kind == "CN" && forall i :: 0 <= i < |before| ==> before[i].kind != "CN"
    ensures var hides := if before == [] then hidden else EndsInBackslash(before[|before| - 1].value);
            FromVisibleCN(before + ([cn] + after), hidden)
            == if hides then FromVisibleCN(after, EndsInBackslash(cn.value)) else [cn] + after
    decreases |before|
  {
    var names := before + ([cn] + after);
    if before == [] {
      assert names == [cn] + after && names[1..] == after;
    } else {
      assert names[1..] == before[1..] + ([cn] + after);
      FirstCommonName(before[1..], cn, after, EndsInBackslash(before[0].value));
    }
  }

  /** The smallest loss: one value that ends in a backslash hides the only common name behind it. */
  lemma BackslashHidesCommonName(x: string, cn: string)
    ensures var names := [Rdn("O", x + "\\"), Rdn("CN", cn)];
            CommonName(Print(names)) == Print(names)
  {
    var names := [Rdn("O", x + "\\"), Rdn("CN", cn)];
    FirstCommonName([names[0]], names[1], [], false);
    assert names == [names[0]] + ([names[1]] + []);
    ParseUndoesPrint(names);
  }
}
