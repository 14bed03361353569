/**
 The scanners of the tokenizer against the grammar of `JsText`: a string or an unquoted value
 is scanned to its end exactly when the grammar allows what was scanned.
 */
module JsScan {
  import opened Jsmn
  import opened JsText

  // ---------------------------------------------------------------- characters

  lemma Classes(c: char)
    ensures Class(c).Blank? <==> White(c)
    ensures Stops(c) <==> EndsValue(c)
    ensures Class(c).Other? <==> !EndsValue(c) && !BeginsOther(c)
  {
  }

  lemma BarePasses(c: char)
    ensures Bare(c) <==> Printable(c) && !Stops(c)
  {
    Classes(c);
  }

  // ---------------------------------------------------------------- unquoted values

  /** Where an unquoted value may end. */
  predicate Ends(js: string, p: nat) {
    AtEnd(js, p) || EndsValue(js[p])
  }

  /** A scan that succeeds went over bare characters only, and as far as there were some. */
  lemma {:induction false} PrimEndIsBare(js: string, p: nat)
    requires p <= |js| && PrimEnd(js, p).Found?
    ensures var e := PrimEnd(js, p).at; p <= e <= |js| && Ends(js, e) && forall i :: p <= i < e ==> Bare(js[i])
    decreases |js| - p
  {
    if p < |js| {
      Classes(js[p]);
      BarePasses(js[p]);
      if !AtEnd(js, p) && !Stops(js[p]) {
        PrimEndIsBare(js, p + 1);
      }
    }
  }

  /** Bare characters are scanned up to where the value may end. */
  lemma {:induction false} BareScanned(js: string, p: nat, e: nat)
    requires p <= e <= |js| && Ends(js, e) && forall i :: p <= i < e ==> Bare(js[i])
    ensures PrimEnd(js, p) == Found(e)
    decreases e - p
  {
    if p < |js| {
      Classes(js[p]);
      BarePasses(js[p]);
      if p < e {
        BareScanned(js, p + 1, e);
      }
    }
  }

  // ---------------------------------------------------------------- strings

  lemma HexDigits(c: char)
    ensures HexDigit(c) <==> Hexadecimal(c)
    ensures SimpleEscape(c) <==> Escaped(c)
  {
  }

  predicate FourDigits(js: string, p: nat) {
    p + 4 <= |js| && Hexadecimal(js[p]) && Hexadecimal(js[p + 1]) && Hexadecimal(js[p + 2]) && Hexadecimal(js[p + 3])
  }

  /** After `\u` the scan goes on behind four digits, or ends with an error. */
  lemma HexScan(js: string, p: nat)
    requires p <= |js|
    ensures var h := HexRun(js, p, 4);
            && (FourDigits(js, p) ==> h == Found(p + 4))
            && (!FourDigits(js, p) && h.Found? ==> AtEnd(js, h.at))
  {
    HexStep(js, p, 4);
    if p < |js| {
      HexStep(js, p + 1, 3);
      if p + 1 < |js| {
        HexStep(js, p + 2, 2);
        if p + 2 < |js| {
          HexStep(js, p + 3, 1);
        }
      }
    }
  }

  lemma HexStep(js: string, p: nat, n: nat)
    requires p <= |js| && n > 0
    ensures HexRun(js, p, n) == if AtEnd(js, p) then Found(p)
                                else if !Hexadecimal(js[p]) then Bad(INVAL)
                                else HexRun(js, p + 1, n - 1)
    ensures n == 1 && p < |js| ==> HexRun(js, p + 1, 0) == Found(p + 1)
  {
    if p < |js| {
      HexDigits(js[p]);
    }
  }

  /** A scan that finds the closing quote went over a string body. */
  lemma {:induction false} StrEndIsBody(js: string, p: nat)
    requires p <= |js| && StrEnd(js, p).Found?
    ensures p <= StrEnd(js, p).at < |js| && Body(js[p..StrEnd(js, p).at])
    decreases |js| - p
  {
    hide HexRun;
    var e := StrEnd(js, p).at;
    var d := js[p..e];
    if js[p] == '\\' && p + 1 < |js| {
      HexDigits(js[p + 1]);
      if SimpleEscape(js[p + 1]) {
        StrEndIsBody(js, p + 2);
        assert d[2..] == js[p + 2..e];
      } else {
        HexScan(js, p + 2);
        assert FourDigits(js, p + 2);
        StrEndIsBody(js, p + 6);
        assert d[6..] == js[p + 6..e] && d[1] == 'u';
      }
    } else if js[p] != '\"' {
      StrEndIsBody(js, p + 1);
      assert d[1..] == js[p + 1..e];
    }
  }

  /** A string body is scanned to its closing quote, wherever it stands. */
  lemma {:induction false} BodyScanned(js: string, p: nat, d: string)
    requires p + |d| < |js| && js[p..p + |d|] == d && js[p + |d|] == '\"' && Body(d)
    ensures StrEnd(js, p) == Found(p + |d|)
    decreases |d|
  {
    hide StrEnd, FourDigits;
    if d == "" {
      StrEndPlain(js, p);
    } else if d[0] != '\\' {
      StrEndPlain(js, p);
      Rest(js, p, d, 1);
      BodyScanned(js, p + 1, d[1..]);
    } else if Escaped(d[1]) {
      Rest(js, p, d, 2);
      StrEndSimple(js, p);
      BodyScanned(js, p + 2, d[2..]);
    } else {
      Letters(js, p, d);
      Rest(js, p, d, 6);
      StrEndHex(js, p);
      BodyScanned(js, p + 6, d[6..]);
    }
  }

  lemma StrEndPlain(js: string, p: nat)
    requires p < |js| && js[p] != NUL && js[p] != '\\'
    ensures StrEnd(js, p) == if js[p] == '\"' then Found(p) else StrEnd(js, p + 1)
  {
  }

  lemma StrEndSimple(js: string, p: nat)
    requires p + 2 <= |js| && js[p] == '\\' && Escaped(js[p + 1])
    ensures StrEnd(js, p) == StrEnd(js, p + 2)
  {
    HexDigits(js[p + 1]);
  }

  lemma StrEndHex(js: string, p: nat)
    requires p + 6 <= |js| && js[p] == '\\' && js[p + 1] == 'u' && FourDigits(js, p + 2)
    ensures StrEnd(js, p) == StrEnd(js, p + 6)
  {
    hide HexRun;
    HexScan(js, p + 2);
  }

  lemma Rest(js: string, p: nat, d: string, k: nat)
    requires p + |d| <= |js| && js[p..p + |d|] == d && k <= |d|
    ensures js[p + k..p + k + |d[k..]|] == d[k..]
  {
    assert js[p + k..p + |d|] == js[p..p + |d|][k..];
  }

  lemma Letters(js: string, p: nat, d: string)
    requires p + |d| <= |js| && js[p..p + |d|] == d && |d| >= 6 && Hexadecimal(d[2]) && Hexadecimal(d[3])
    requires Hexadecimal(d[4]) && Hexadecimal(d[5])
    ensures js[p + 1] == d[1] && FourDigits(js, p + 2)
  {
    assert d[1] == js[p + 1] && d[2] == js[p + 2] && d[3] == js[p + 3] && d[4] == js[p + 4] && d[5] == js[p + 5];
  }

  /** The tokenizer reads exactly the string bodies of the grammar. */
  lemma AcceptedIsBody(d: string)
    ensures StrText(d) <==> Body(d)
  {
    var q := d + "\"";
    assert q[0..|d|] == d;
    if Body(d) {
      BodyScanned(q, 0, d);
    }
    if StrText(d) {
      StrEndIsBody(q, 0);
    }
  }
}
