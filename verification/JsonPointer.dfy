/** The JSON pointer check of `EvidenceRef` (src/nova_rtl/contracts/base.py) against the
    grammar and the decoding of RFC 6901. */
module JsonPointer {
  import opened Prelude

  /** reference-token of section 3 of RFC 6901: unescaped characters, "~0" and "~1". */
  predicate ReferenceToken(t: string) {
    || t == ""
    || (t[0] != '/' && t[0] != '~' && ReferenceToken(t[1..]))
    || (|t| >= 2 && t[0] == '~' && (t[1] == '0' || t[1] == '1') && ReferenceToken(t[2..]))
  }

  /** json-pointer of section 3: any number of tokens, each behind a "/". */
  ghost predicate Pointer(s: string)
    decreases |s|
  {
    s == "" || (s[0] == '/' && exists k :: 1 <= k <= |s| && ReferenceToken(s[1..k]) && Pointer(s[k..]))
  }

  /** Every "~" begins an escape. */
  predicate EscapesOk(s: string) {
    s == "" ||
    (if s[0] == '~' then |s| >= 2 && (s[1] == '0' || s[1] == '1') && EscapesOk(s[2..]) else EscapesOk(s[1..]))
  }

  /** `json_pointer_is_rfc6901`; false stands for the ValueError. */
  method IsRfc6901(value: Option<string>) returns (ok: bool)
    ensures ok <==> (value.Some? ==> Pointer(value.value))
  {
    if value.None? { return true; }
    var s := value.value;
    PointerIffScan(s);
    if s != "" && s[0] != '/' { return false; }
    var index := 0;
    assert s[0..] == s;
    while index < |s|
      invariant 0 <= index <= |s|
      invariant EscapesOk(s) <==> EscapesOk(s[index..])
    {
      if s[index] == '~' {
        if index + 1 >= |s| || s[index + 1] !in {'0', '1'} { return false; }
        assert s[index..][2..] == s[index + 2..];
        index := index + 1;
      } else {
        assert s[index..][1..] == s[index + 1..];
      }
      index := index + 1;
    }
    ok := true;
  }

  lemma {:induction false} EscapesConcat(a: string, b: string)
    requires EscapesOk(a) && EscapesOk(b)
    ensures EscapesOk(a + b)
  {
    if a == "" {
      assert a + b == b;
    } else if a[0] == '~' {
      EscapesConcat(a[2..], b);
      assert (a + b)[2..] == a[2..] + b;
    } else {
      EscapesConcat(a[1..], b);
      assert (a + b)[1..] == a[1..] + b;
    }
  }

  lemma {:induction false} EscapesSplit(a: string, b: string)
    requires EscapesOk(a + b) && (b == "" || b[0] == '/')
    ensures EscapesOk(a) && EscapesOk(b)
  {
    if a == "" {
      assert a + b == b;
    } else if a[0] == '~' {
      assert (a + b)[|a|..] == b;
      assert (a + b)[2..] == a[2..] + b;
      EscapesSplit(a[2..], b);
    } else {
      assert (a + b)[1..] == a[1..] + b;
      EscapesSplit(a[1..], b);
    }
  }

  lemma {:induction false} TokenIffScan(t: string)
    ensures ReferenceToken(t) <==> EscapesOk(t) && '/' !in t
  {
    if t != "" {
      if t[0] == '~' {
        if |t| >= 2 {
          TokenIffScan(t[2..]);
          assert t == [t[0], t[1]] + t[2..];
        }
      } else {
        TokenIffScan(t[1..]);
        assert t == [t[0]] + t[1..];
      }
    }
  }

  /** Where the token that starts at i ends. */
  function NextSlash(s: string, i: nat): (k: nat)
    requires i <= |s|
    ensures i <= k <= |s| && (k < |s| ==> s[k] == '/') && '/' !in s[i..k]
    decreases |s| - i
  {
    if i == |s| || s[i] == '/' then i
    else
      var k := NextSlash(s, i + 1);
      assert s[i..k] == [s[i]] + s[i + 1..k];
      k
  }

  /** The scan accepts exactly the grammar. */
  lemma {:induction false} PointerIffScan(s: string)
    ensures Pointer(s) <==> (s == "" || s[0] == '/') && EscapesOk(s)
    decreases |s|
  {
    if s != "" && s[0] == '/' {
      forall k | 1 <= k <= |s| && ReferenceToken(s[1..k]) && Pointer(s[k..]) ensures EscapesOk(s) {
        PointerIffScan(s[k..]);
        TokenIffScan(s[1..k]);
        EscapesConcat(s[1..k], s[k..]);
        assert s[1..k] + s[k..] == s[1..];
      }
      if EscapesOk(s) {
        var k := NextSlash(s, 1);
        assert s[1..k] + s[k..] == s[1..];
        EscapesSplit(s[1..k], s[k..]);
        TokenIffScan(s[1..k]);
        PointerIffScan(s[k..]);
      }
    }
  }

  // ------------------------------------------------------------------------- decoding

  /** Replaces every "~d", left to right, by one character. */
  function Replace(s: string, d: char, to: char): string {
    if |s| >= 2 && s[0] == '~' && s[1] == d then [to] + Replace(s[2..], d, to)
    else if s == "" then ""
    else [s[0]] + Replace(s[1..], d, to)
  }

  /** Section 4: first "~1" to "/", then "~0" to "~". */
  function Unescape(t: string): string { Replace(Replace(t, '1', '/'), '0', '~') }

  /** Section 3, last paragraph of section 4 reversed: "~" is written "~0", "/" is "~1". */
  function Escape(t: string): string {
    if t == "" then ""
    else (if t[0] == '~' then "~0" else if t[0] == '/' then "~1" else [t[0]]) + Escape(t[1..])
  }

  /** The reference tokens of a pointer, decoded. */
  function Tokens(s: string): seq<string>
    requires s == "" || s[0] == '/'
    decreases |s|
  {
    if s == "" then []
    else
      var k := NextSlash(s, 1);
      [Unescape(s[1..k])] + Tokens(s[k..])
  }

  /** The pointer that these tokens are written as. */
  function Render(tokens: seq<string>): (s: string)
    ensures s == "" || s[0] == '/'
  {
    if tokens == [] then "" else "/" + Escape(tokens[0]) + Render(tokens[1..])
  }

  lemma {:induction false} EscapeIsToken(t: string)
    ensures ReferenceToken(Escape(t))
  {
    if t != "" {
      EscapeIsToken(t[1..]);
      if t[0] == '~' || t[0] == '/' { assert Escape(t)[2..] == Escape(t[1..]); }
      else { assert Escape(t)[1..] == Escape(t[1..]); }
    }
  }

  lemma UnescapeHead(t: string)
    requires ReferenceToken(t) && t != ""
    ensures t[0] != '~' ==> Unescape(t) == [t[0]] + Unescape(t[1..])
    ensures t[0] == '~' ==> |t| >= 2 && Unescape(t) == [if t[1] == '0' then '~' else '/'] + Unescape(t[2..])
  {
    if t[0] != '~' {
      var r := Replace(t[1..], '1', '/');
      assert Replace(t, '1', '/') == [t[0]] + r && ([t[0]] + r)[1..] == r;
    } else if t[1] == '1' {
      var r := Replace(t[2..], '1', '/');
      assert Replace(t, '1', '/') == ['/'] + r && (['/'] + r)[1..] == r;
    } else {
      var r := Replace(t[2..], '1', '/');
      assert t[1..][1..] == t[2..];
      assert Replace(t, '1', '/') == ['~', '0'] + r && (['~', '0'] + r)[2..] == r;
    }
  }

  lemma {:induction false} UnescapeInvertsEscape(t: string)
    ensures Unescape(Escape(t)) == t
  {
    if t != "" {
      UnescapeInvertsEscape(t[1..]);
      EscapeIsToken(t);
      UnescapeHead(Escape(t));
      if t[0] == '~' || t[0] == '/' { assert Escape(t)[2..] == Escape(t[1..]); }
      else { assert Escape(t)[1..] == Escape(t[1..]); }
      assert t == [t[0]] + t[1..];
    }
  }

  lemma {:induction false} EscapeInvertsUnescape(t: string)
    requires ReferenceToken(t)
    ensures Escape(Unescape(t)) == t
  {
    if t != "" {
      UnescapeHead(t);
      var u := Unescape(t);
      if t[0] == '~' {
        EscapeInvertsUnescape(t[2..]);
        assert u[1..] == Unescape(t[2..]);
        assert t == [t[0], t[1]] + t[2..];
      } else {
        EscapeInvertsUnescape(t[1..]);
        assert u[1..] == Unescape(t[1..]);
        assert t == [t[0]] + t[1..];
      }
    }
  }

  lemma NextSlashIs(s: string, token: string, rest: string)
    requires s == "/" + token + rest && '/' !in token && (rest == "" || rest[0] == '/')
    ensures NextSlash(s, 1) == 1 + |token| && s[1..1 + |token|] == token && s[1 + |token|..] == rest
  {
    var k := NextSlash(s, 1);
    assert s[1..1 + |token|] == token && s[1 + |token|..] == rest;
    assert forall i :: 0 <= i < |token| ==> token[i] in token && s[1 + i] == token[i];
    assert rest != "" ==> s[1 + |token|] == rest[0];
    assert forall i :: 1 <= i < k ==> s[i] in s[1..k] by {
      forall i | 1 <= i < k ensures s[i] in s[1..k] { assert s[1..k][i - 1] == s[i]; }
    }
  }

  /** Decoding what was printed returns the tokens, for every token list. */
  lemma {:induction false} TokensInvertsRender(tokens: seq<string>)
    ensures Tokens(Render(tokens)) == tokens && Pointer(Render(tokens))
  {
    if tokens != [] {
      var s, token, rest := Render(tokens), Escape(tokens[0]), Render(tokens[1..]);
      TokensInvertsRender(tokens[1..]);
      EscapeIsToken(tokens[0]);
      TokenIffScan(token);
      NextSlashIs(s, token, rest);
      UnescapeInvertsEscape(tokens[0]);
      assert ReferenceToken(s[1..1 + |token|]) && Pointer(s[1 + |token|..]);
    }
  }

  /** A pointer splits at the next slash into its first token and another pointer. */
  lemma PointerSplits(s: string, k: nat)
    requires Pointer(s) && s != "" && k == NextSlash(s, 1)
    ensures ReferenceToken(s[1..k]) && Pointer(s[k..])
  {
    PointerIffScan(s);
    assert s[1..k] + s[k..] == s[1..];
    EscapesSplit(s[1..k], s[k..]);
    TokenIffScan(s[1..k]);
    PointerIffScan(s[k..]);
  }

  lemma RenderCons(token: string, tokens: seq<string>, s: string, k: nat)
    requires 1 <= k <= |s| && s[0] == '/' && Escape(token) == s[1..k] && Render(tokens) == s[k..]
    ensures Render([token] + tokens) == s
  {
    assert ([token] + tokens)[1..] == tokens;
    assert s == "/" + s[1..k] + s[k..];
  }

  lemma TokensCons(s: string, k: nat)
    requires s != "" && s[0] == '/' && k == NextSlash(s, 1)
    ensures Tokens(s) == [Unescape(s[1..k])] + Tokens(s[k..])
  {
  }

  /** Printing what was decoded returns the pointer, for every pointer of the grammar. */
  lemma {:induction false} RenderInvertsTokens(s: string)
    requires Pointer(s)
    ensures Render(Tokens(s)) == s
    decreases |s|
  {
    if s != "" {
      var k := NextSlash(s, 1);
      PointerSplits(s, k);
      RenderInvertsTokens(s[k..]);
      EscapeInvertsUnescape(s[1..k]);
      TokensCons(s, k);
      RenderCons(Unescape(s[1..k]), Tokens(s[k..]), s, k);
    }
  }

  /** A string is accepted exactly when it is the escaped printing of some token list, and
      then of exactly one: the list its decoding returns. */
  lemma AcceptedIffPrinted(s: string)
    ensures Pointer(s) <==> exists tokens :: Render(tokens) == s
    ensures Pointer(s) ==> forall tokens :: Render(tokens) == s <==> tokens == Tokens(s)
  {
    if Pointer(s) { RenderInvertsTokens(s); }
    forall tokens | Render(tokens) == s ensures Pointer(s) && tokens == Tokens(s) { TokensInvertsRender(tokens); }
  }
}
