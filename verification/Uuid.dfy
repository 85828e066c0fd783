/** The UUID generator (`generateUUID`): a fixed template whose `x` and `y`
    placeholders are filled from random values. The randomness is a parameter: the
    k-th placeholder from the left takes the k-th value of `nibbles`, each standing
    for one draw of `(Math.random() * 16) | 0`. */
module Uuid {

  /** One random draw, an integer from 0 to 15. */
  type Nibble = x: int | 0 <= x < 16

  /** The radio-button value "v1" selects version 1; every other value selects version 4. */
  function VersionDigit(version: string): (d: char)
    ensures d == '1' <==> version == "v1"
    ensures d != '1' ==> d == '4'
  {
    if version == "v1" then '1' else '4'
  }

  /** A run of `n` placeholders `x`. */
  function Xs(n: nat): (r: string)
    ensures |r| == n && forall p :: 0 <= p < n ==> r[p] == 'x'
  {
    seq(n, _ => 'x')
  }

  /** The part of the template before the version digit, "xxxxxxxx-xxxx-". */
  function TemplateHead(): (h: string)
  {
    Xs(8) + "-" + Xs(4) + "-"
  }

  /** The part after the version digit, "xxx-yxxx-xxxxxxxxxxxx". */
  function TemplateTail(): (tl: string)
  {
    Xs(3) + "-y" + Xs(3) + "-" + Xs(12)
  }

  /** "xxxxxxxx-xxxx-1xxx-yxxx-xxxxxxxxxxxx" for v1 and
      "xxxxxxxx-xxxx-4xxx-yxxx-xxxxxxxxxxxx" otherwise. */
  function Template(version: string): (t: string)
    ensures |t| == 36 && Holes(t) == 31
  {
    XsCount(8);
    XsCount(4);
    XsCount(3);
    XsCount(12);
    var h, tl := TemplateHead(), TemplateTail();
    assert multiset(h)['x'] == 12 && multiset(h)['y'] == 0;
    assert multiset(tl)['x'] == 18 && multiset(tl)['y'] == 1;
    h + [VersionDigit(version)] + tl
  }

  /** How many random values a template consumes: one per `x` or `y`. */
  function Holes(t: string): (n: nat)
  {
    multiset(t)['x'] + multiset(t)['y']
  }

  predicate IsLowerHex(c: char)
  {
    '0' <= c <= '9' || 'a' <= c <= 'f'
  }

  /** `v.toString(16)`. */
  function HexDigit(v: Nibble): (c: char)
    ensures IsLowerHex(c)
  {
    "0123456789abcdef"[v]
  }

  /** The value of a lower-case hexadecimal digit. */
  function HexValue(c: char): (v: Nibble)
    requires IsLowerHex(c)
    ensures HexDigit(v) == c
  {
    if c <= '9' then c as int - '0' as int else c as int - 'a' as int + 10
  }

  lemma HexValueOfDigit(v: Nibble)
    ensures HexValue(HexDigit(v)) == v
  {
  }

  /** The variant digit `(r & 0x3) | 0x8`. */
  function Variant(r: Nibble): (v: Nibble)
    ensures v == 8 + r % 4
  {
    ((r as bv4 & 3) | 8) as int
  }

  /** What a template character allows in the output: a hex digit for `x`, one of
      8, 9, a, b for `y`, and itself otherwise. */
  predicate FitsChar(tc: char, c: char)
  {
    if tc == 'x' then IsLowerHex(c)
    else if tc == 'y' then c in "89ab"
    else c == tc
  }

  /** `u` has the shape of template `t`. */
  predicate Fits(t: string, u: string)
  {
    |u| == |t| && forall p :: 0 <= p < |t| ==> FitsChar(t[p], u[p])
  }

  /** `t.replace(/[xy]/g, ...)`: each placeholder takes the next random value; the
      result has the template's shape. */
  function Fill(t: string, nibbles: seq<Nibble>): (u: string)
    requires |nibbles| == Holes(t)
    ensures Fits(t, u)
  {
    if t == [] then []
    else
      assert t == [t[0]] + t[1..];
      var rest := if t[0] == 'x' || t[0] == 'y' then nibbles[1..] else nibbles;
      var head :=
        if t[0] == 'x' then HexDigit(nibbles[0])
        else if t[0] == 'y' then HexDigit(Variant(nibbles[0]))
        else t[0];
      var tail := Fill(t[1..], rest);
      assert FitsChar(t[0], head) by {
        if t[0] == 'y' {
          var v := Variant(nibbles[0]);
          assert HexDigit(v) == "89ab"[v - 8];
        }
      }
      assert forall p :: 1 <= p < |t| ==> FitsChar(t[p], ([head] + tail)[p]) by {
        forall p | 1 <= p < |t| ensures FitsChar(t[p], ([head] + tail)[p]) {
          assert FitsChar(t[1..][p - 1], tail[p - 1]);
        }
      }
      [head] + tail
  }

  /** The inverse of `Fill`: the value each placeholder shows, read back from `u`
      (for `y`, the two low bits that survive). */
  function Read(t: string, u: string): (nibbles: seq<Nibble>)
    requires Fits(t, u)
    ensures |nibbles| == Holes(t)
  {
    if t == [] then []
    else
      assert t == [t[0]] + t[1..];
      assert Fits(t[1..], u[1..]) by {
        forall p | 0 <= p < |t| - 1 ensures FitsChar(t[1..][p], u[1..][p]) {
          assert FitsChar(t[p + 1], u[p + 1]);
        }
      }
      assert FitsChar(t[0], u[0]);
      if t[0] == 'x' then [HexValue(u[0])] + Read(t[1..], u[1..])
      else if t[0] == 'y' then [HexValue(u[0]) - 8] + Read(t[1..], u[1..])
      else Read(t[1..], u[1..])
  }

  /** The random values as the output keeps them: exact for `x`, reduced to their
      two low bits for `y`. */
  function Kept(t: string, nibbles: seq<Nibble>): (r: seq<Nibble>)
    requires |nibbles| == Holes(t)
    ensures |r| == |nibbles|
  {
    if t == [] then []
    else
      assert t == [t[0]] + t[1..];
      if t[0] == 'x' then [nibbles[0]] + Kept(t[1..], nibbles[1..])
      else if t[0] == 'y' then [nibbles[0] % 4] + Kept(t[1..], nibbles[1..])
      else Kept(t[1..], nibbles)
  }

  /** Every string of the template's shape is some fill: reading its values back and
      filling again reproduces it. */
  lemma {:induction false} FillRead(t: string, u: string)
    requires Fits(t, u)
    ensures Fill(t, Read(t, u)) == u
  {
    if t != [] {
      assert t == [t[0]] + t[1..];
      assert Fits(t[1..], u[1..]) by {
        forall p | 0 <= p < |t| - 1 ensures FitsChar(t[1..][p], u[1..][p]) {
          assert FitsChar(t[p + 1], u[p + 1]);
        }
      }
      FillRead(t[1..], u[1..]);
      assert FitsChar(t[0], u[0]);
      if t[0] == 'y' {
        var v := HexValue(u[0]);
        assert 8 <= v <= 11;
        assert Variant(v - 8) == v;
      }
      assert u == [u[0]] + u[1..];
    }
  }

  /** Reading a fill back recovers the random values it kept. */
  lemma {:induction false} ReadFill(t: string, nibbles: seq<Nibble>)
    requires |nibbles| == Holes(t)
    ensures Fits(t, Fill(t, nibbles))
    ensures Read(t, Fill(t, nibbles)) == Kept(t, nibbles)
  {
    if t != [] {
      assert t == [t[0]] + t[1..];
      var rest := if t[0] == 'x' || t[0] == 'y' then nibbles[1..] else nibbles;
      ReadFill(t[1..], rest);
      var u := Fill(t, nibbles);
      assert u[1..] == Fill(t[1..], rest);
      if t[0] == 'x' {
        HexValueOfDigit(nibbles[0]);
      } else if t[0] == 'y' {
        HexValueOfDigit(Variant(nibbles[0]));
      }
    }
  }

  /** The layout of a generated UUID: 36 characters, dashes at 8, 13, 18 and 23,
      the version digit at 14, a variant digit 8, 9, a or b at 19, and lower-case
      hexadecimal digits everywhere else. */
  predicate UuidLayout(u: string, version: char)
  {
    && |u| == 36
    && u[8] == '-' && u[13] == '-' && u[18] == '-' && u[23] == '-'
    && u[14] == version
    && u[19] in "89ab"
    && forall p :: 0 <= p < 36 && p !in {8, 13, 14, 18, 19, 23} ==> IsLowerHex(u[p])
  }

  /** Where the template has its dashes, version digit and placeholders. */
  lemma TemplateLayout(version: string)
    ensures |Template(version)| == 36
    ensures var t := Template(version);
            && t[8] == '-' && t[13] == '-' && t[18] == '-' && t[23] == '-'
            && t[14] == VersionDigit(version) && t[19] == 'y'
            && forall p :: 0 <= p < 36 && p !in {8, 13, 14, 18, 19, 23} ==> t[p] == 'x'
  {
    var t := Template(version);
    var h, tl := TemplateHead(), TemplateTail();
    forall p | 0 <= p < 36 && p !in {8, 13, 14, 18, 19, 23}
      ensures t[p] == 'x'
    {
      if p < 14 {
        assert t[p] == h[p];
      } else {
        assert t[p] == tl[p - 15];
      }
    }
  }

  /** A string has the UUID layout exactly when it has the template's shape. */
  lemma LayoutIsTemplateShape(version: string, u: string)
    ensures UuidLayout(u, VersionDigit(version)) <==> Fits(Template(version), u)
  {
    var t := Template(version);
    TemplateLayout(version);
    if UuidLayout(u, VersionDigit(version)) {
      forall p | 0 <= p < 36
        ensures FitsChar(t[p], u[p])
      {
      }
    }
    if Fits(t, u) {
      forall p | 0 <= p < 36 && p !in {8, 13, 14, 18, 19, 23}
        ensures IsLowerHex(u[p])
      {
        assert FitsChar(t[p], u[p]);
      }
      assert FitsChar(t[8], u[8]) && FitsChar(t[13], u[13]) && FitsChar(t[18], u[18]) && FitsChar(t[23], u[23]);
      assert FitsChar(t[14], u[14]) && FitsChar(t[19], u[19]);
    }
  }

  lemma {:induction false} XsCount(n: nat)
    ensures multiset(Xs(n))['x'] == n && multiset(Xs(n))['y'] == 0
  {
    if n > 0 {
      XsCount(n - 1);
      assert Xs(n) == Xs(n - 1) + ['x'];
    }
  }

  /** `generateUUID`: fill the chosen template with 31 random values. */
  function GenerateUuid(version: string, nibbles: seq<Nibble>): (u: string)
    requires |nibbles| == 31
    ensures UuidLayout(u, VersionDigit(version))
    ensures Fits(Template(version), u)
    ensures Read(Template(version), u) == Kept(Template(version), nibbles)
  {
    var u := Fill(Template(version), nibbles);
    GeneratedLayout(version, nibbles);
    u
  }

  lemma GeneratedLayout(version: string, nibbles: seq<Nibble>)
    requires |nibbles| == Holes(Template(version))
    ensures UuidLayout(Fill(Template(version), nibbles), VersionDigit(version))
    ensures Fits(Template(version), Fill(Template(version), nibbles))
    ensures Read(Template(version), Fill(Template(version), nibbles)) == Kept(Template(version), nibbles)
  {
    ReadFill(Template(version), nibbles);
    LayoutIsTemplateShape(version, Fill(Template(version), nibbles));
  }

  /** Every string with the UUID layout is generated by some choice of random values. */
  lemma EveryLayoutIsGenerated(version: string, u: string)
    requires UuidLayout(u, VersionDigit(version))
    ensures |Read(Template(version), u)| == 31
    ensures GenerateUuid(version, Read(Template(version), u)) == u
  {
    LayoutIsTemplateShape(version, u);
    FillRead(Template(version), u);
  }
}
