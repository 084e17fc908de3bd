/** The text under which an estimate is remembered: the RPC, then the transaction as JSON. */
module BridgeKey {
  import opened Numerals
  import opened BridgeTransaction

  /** JSON's escape of one character. */
  function EscapeChar(c: char): string {
    if c == '"' || c == '\\' then ['\\', c]
    else if c == '\U{8}' then "\\b"
    else if c == '\t' then "\\t"
    else if c == '\n' then "\\n"
    else if c == '\U{c}' then "\\f"
    else if c == '\r' then "\\r"
    else if c < ' ' then "\\u" + PadStart(Print(c as nat, Hex), 4)
    else [c]
  }

  function Escape(s: string): string {
    if s == "" then "" else EscapeChar(s[0]) + Escape(s[1..])
  }

  function Json(t: Transaction): string {
    "{\"from\":\"" + Escape(t.from) + "\",\"to\":\"" + Escape(t.to)
    + "\",\"data\":\"" + Escape(t.data) + "\",\"value\":\"" + Escape(t.value) + "\"}"
  }

  function Key(r: Request): string {
    r.rpc + Json(r.transaction)
  }

  // ---------------------------------------------------------------------------
  // Escaping loses nothing
  // ---------------------------------------------------------------------------

  lemma ControlDigits(c: char)
    requires c < ' '
    ensures |PadStart(Print(c as nat, Hex), 4)| == 4
  {
    assert Shift(1, 4, Hex) == 65536;
    PrintWidth(c as nat, 4, Hex);
  }

  /** The length of an escape shows in its first two characters. */
  function EscapeLength(s: string): nat {
    if s == "" || s[0] != '\\' then 1 else if |s| > 1 && s[1] == 'u' then 6 else 2
  }

  lemma EscapeLengthOf(c: char, x: string)
    ensures |EscapeChar(c)| == EscapeLength(EscapeChar(c) + x)
  {
    hide Print, PadStart;
    var e := EscapeChar(c);
    assert (e + x)[0] == e[0];
    if |e| > 1 {
      assert (e + x)[1] == e[1];
    }
    if c < ' ' {
      ControlDigits(c);
    }
  }

  lemma EscapeCharInjective(c: char, d: char)
    requires EscapeChar(c) == EscapeChar(d)
    ensures c == d
  {
    hide Print, PadStart;
    var s, t := EscapeChar(c), EscapeChar(d);
    if c < ' ' { ControlDigits(c); }
    if d < ' ' { ControlDigits(d); }
    if |s| > 2 {
      assert s[2..] == PadStart(Print(c as nat, Hex), 4) && t[2..] == PadStart(Print(d as nat, Hex), 4);
      PaddedInjective(c as nat, d as nat, 4, Hex);
    }
  }

  lemma EscapeCharUnique(c: char, d: char, x: string, y: string)
    requires EscapeChar(c) + x == EscapeChar(d) + y
    ensures c == d && x == y
  {
    hide EscapeChar, EscapeLength;
    var s, t := EscapeChar(c), EscapeChar(d);
    EscapeLengthOf(c, x);
    EscapeLengthOf(d, y);
    assert (s + x)[..|s|] == s && (t + y)[..|t|] == t;
    assert (s + x)[|s|..] == x && (t + y)[|t|..] == y;
    EscapeCharInjective(c, d);
  }

  lemma {:induction false} EscapeUnique(a: string, b: string)
    requires Escape(a) == Escape(b)
    ensures a == b
  {
    if a != "" && b != "" {
      EscapeCharUnique(a[0], b[0], Escape(a[1..]), Escape(b[1..]));
      EscapeUnique(a[1..], b[1..]);
    }
  }

  // ---------------------------------------------------------------------------
  // The key is read from its end
  // ---------------------------------------------------------------------------

  /** A quotation mark in escaped text follows a backslash. */
  predicate Guarded(e: string) {
    forall i :: 0 <= i < |e| && e[i] == '"' ==> i > 0 && e[i - 1] == '\\'
  }

  lemma CharGuarded(c: char)
    ensures Guarded(EscapeChar(c))
  {
    if c < ' ' {
      ControlDigits(c);
    }
  }

  lemma {:induction false} EscapeGuarded(s: string)
    ensures Guarded(Escape(s))
  {
    if s != "" {
      CharGuarded(s[0]);
      EscapeGuarded(s[1..]);
    }
  }

  /** In the longer of two last texts the opening quotation mark of the shorter one would
      stand at its start or after a colon. */
  lemma QuoteInside(a: string, e: string, b: string, f: string)
    requires a + ":\"" + e == b + ":\"" + f && |e| < |f|
    ensures var quote := |f| - |e| - 1; f[quote] == '"' && (quote > 0 ==> f[quote - 1] == ':')
  {
    var s, t, quote := a + ":\"" + e, b + ":\"" + f, |f| - |e| - 1;
    assert |s| == |t|;
    assert s[|a| + 1] == '"' && s[|a|] == ':';
    assert t[|b| + 2 + quote] == f[quote];
    assert quote > 0 ==> t[|b| + 1 + quote] == f[quote - 1];
  }

  lemma LastTextNotShorter(a: string, e: string, b: string, f: string)
    requires a + ":\"" + e == b + ":\"" + f && Guarded(f)
    ensures |f| <= |e|
  {
    if |e| < |f| {
      QuoteInside(a, e, b, f);
    }
  }

  lemma LastText(a: string, e: string, b: string, f: string, end: string)
    requires a + ":\"" + e + end == b + ":\"" + f + end && Guarded(e) && Guarded(f)
    ensures a == b && e == f
  {
    var s, t := a + ":\"" + e, b + ":\"" + f;
    assert (s + end)[..|s|] == s && (t + end)[..|t|] == t;
    LastTextNotShorter(a, e, b, f);
    LastTextNotShorter(b, f, a, e);
    assert s[..|a|] == a && t[..|b|] == b;
    assert s[|a| + 2..] == e && t[|b| + 2..] == f;
  }

  /** A text followed by two quoted ones and known separators. */
  lemma TwoTexts(a: string, e: string, c: string, g: string, b: string, f: string, d: string, h: string,
                 middle: string, end: string)
    requires a + ":\"" + e + middle + ":\"" + g + end == b + ":\"" + f + middle + ":\"" + h + end
    requires c == a + ":\"" + e + middle && d == b + ":\"" + f + middle
    requires Guarded(e) && Guarded(f) && Guarded(g) && Guarded(h)
    ensures a == b && e == f && g == h
  {
    hide Guarded;
    LastText(c, g, d, h, end);
    LastText(a, e, b, f, middle);
  }

  function FirstHalf(r: Request): string {
    r.rpc + "{\"from\":\"" + Escape(r.transaction.from) + "\",\"to\":\"" + Escape(r.transaction.to) + "\",\"data\""
  }

  /** Two keys are the same text only for the same RPC and the same transaction, whatever
      characters these contain. */
  lemma KeyUnique(r: Request, q: Request)
    ensures Key(r) == Key(q) <==> r == q
  {
    if Key(r) == Key(q) {
      hide Escape, Guarded, FirstHalf;
      var t, u := r.transaction, q.transaction;
      EscapedTransaction(t);
      EscapedTransaction(u);
      KeyHalves(r);
      KeyHalves(q);
      var c, d := FirstHalf(r) + ":\"" + Escape(t.data) + "\",\"value\"", FirstHalf(q) + ":\"" + Escape(u.data) + "\",\"value\"";
      TwoTexts(FirstHalf(r), Escape(t.data), c, Escape(t.value), FirstHalf(q), Escape(u.data), d, Escape(u.value),
               "\",\"value\"", "\"}");
      FirstHalfUnique(r, q);
      EscapeUnique(t.value, u.value);
      EscapeUnique(t.data, u.data);
    }
  }

  lemma KeyHalves(r: Request)
    ensures Key(r) == FirstHalf(r) + ":\"" + Escape(r.transaction.data) + "\",\"value\"" + ":\"" + Escape(r.transaction.value) + "\"}"
  {
    hide Escape;
    var t := r.transaction;
    var from, to, data, value := Escape(t.from), Escape(t.to), Escape(t.data), Escape(t.value);
    assert "\",\"data\"" + ":\"" == "\",\"data\":\"";
    assert "\",\"value\"" + ":\"" == "\",\"value\":\"";
  }

  lemma FirstHalfTexts(r: Request)
    ensures var t := r.transaction;
      FirstHalf(r) == r.rpc + "{\"from\"" + ":\"" + Escape(t.from) + "\",\"to\"" + ":\"" + Escape(t.to) + "\",\"data\""
  {
    hide Escape;
    var from, to := Escape(r.transaction.from), Escape(r.transaction.to);
    assert "{\"from\"" + ":\"" == "{\"from\":\"";
    assert "\",\"to\"" + ":\"" == "\",\"to\":\"";
  }

  lemma FirstHalfUnique(r: Request, q: Request)
    requires FirstHalf(r) == FirstHalf(q)
    ensures r.rpc == q.rpc && r.transaction.from == q.transaction.from && r.transaction.to == q.transaction.to
  {
    hide Escape, Guarded, FirstHalf;
    var t, u := r.transaction, q.transaction;
    EscapedTransaction(t);
    EscapedTransaction(u);
    FirstHalfTexts(r);
    FirstHalfTexts(q);
    var a, b := r.rpc + "{\"from\"", q.rpc + "{\"from\"";
    var c, d := a + ":\"" + Escape(t.from) + "\",\"to\"", b + ":\"" + Escape(u.from) + "\",\"to\"";
    TwoTexts(a, Escape(t.from), c, Escape(t.to), b, Escape(u.from), d, Escape(u.to), "\",\"to\"", "\",\"data\"");
    assert a[..|r.rpc|] == r.rpc && b[..|q.rpc|] == q.rpc;
    EscapeUnique(t.from, u.from);
    EscapeUnique(t.to, u.to);
  }

  lemma EscapedTransaction(t: Transaction)
    ensures Guarded(Escape(t.from)) && Guarded(Escape(t.to)) && Guarded(Escape(t.data)) && Guarded(Escape(t.value))
  {
    EscapeGuarded(t.from);
    EscapeGuarded(t.to);
    EscapeGuarded(t.data);
    EscapeGuarded(t.value);
  }
}
