/** The floor layer of a map: the `data` text, stripped of whitespace and split on
    commas, is written token by token into a zero-filled buffer of `width * height` cells. */
module Grid {
  import opened Wrappers
  import opened Strings
  import opened Numbers
  import opened MapRecords

  /** A token `str::parse::<u8>` accepts. */
  predicate Parses(token: string)
  {
    ParseU8(token).Some?
  }

  function TokenValue(token: string): u8
    requires Parses(token)
  {
    ParseU8(token).value
  }

  /** The tokens of a `data` text. */
  function Tokens(text: string): (tokens: seq<string>)
    ensures |tokens| >= 1
  {
    Split(StripWhitespace(text), ',')
  }

  function TokenValues(tokens: seq<string>): (vs: seq<u8>)
    requires forall k :: 0 <= k < |tokens| ==> Parses(tokens[k])
    ensures |vs| == |tokens|
    ensures forall k :: 0 <= k < |tokens| ==> vs[k] == TokenValue(tokens[k])
  {
    seq(|tokens|, k requires 0 <= k < |tokens| && Parses(tokens[k]) => TokenValue(tokens[k]))
  }

  function Zeros(n: nat): (z: seq<u8>)
    ensures |z| == n && forall k :: 0 <= k < n ==> z[k] == 0
  {
    seq(n, _ => 0)
  }

  /** What the write loop ends with, in closed form. A token is parsed before its cell
      is indexed, so the first unparsable token among the first `n + 1` is reported
      ahead of the overflow of the buffer. */
  function DecodeGridSpec(tokens: seq<string>, n: nat): Result<seq<u8>, LoadError>
  {
    var bad := FirstIndex(tokens, Parses, false);
    if bad.Some? && bad.value <= n then Err(BadValue("data", tokens[bad.value]))
    else if |tokens| > n then Err(IndexOutOfBounds(n, n))
    else Ok(TokenValues(tokens) + Zeros(n - |tokens|))
  }

  /** `vec![0; n]` and the loop `data[idx] = num.parse::<u8>()?; idx += 1`. */
  method DecodeGrid(tokens: seq<string>, n: nat) returns (r: Result<seq<u8>, LoadError>)
    ensures r == DecodeGridSpec(tokens, n)
  {
    var data := new u8[n](_ => 0);
    var idx := 0;
    while idx < |tokens|
      invariant 0 <= idx <= |tokens| && idx <= n
      invariant forall k :: 0 <= k < idx ==> Parses(tokens[k])
      invariant forall k :: 0 <= k < idx ==> data[k] == TokenValue(tokens[k])
      invariant forall k :: idx <= k < n ==> data[k] == 0
    {
      var v := ParseU8(tokens[idx]);
      if v.None? {
        FirstBadToken(tokens, n, idx);
        return Err(BadValue("data", tokens[idx]));
      }
      if idx >= n {
        TooManyTokens(tokens, n);
        return Err(IndexOutOfBounds(idx, n));
      }
      data[idx] := v.value;
      idx := idx + 1;
    }
    BadTokenBeyond(tokens, idx);
    r := Ok(data[..]);
    GridFromCells(tokens, n, data[..]);
  }

  /** A buffer holding the token values then zeros is the closed form's grid. */
  lemma GridFromCells(tokens: seq<string>, n: nat, cells: seq<u8>)
    requires |tokens| <= n == |cells|
    requires forall k :: 0 <= k < |tokens| ==> Parses(tokens[k])
    requires forall k :: 0 <= k < |tokens| ==> cells[k] == TokenValue(tokens[k])
    requires forall k :: |tokens| <= k < n ==> cells[k] == 0
    ensures DecodeGridSpec(tokens, n) == Ok(cells)
  {
    BadTokenBeyond(tokens, |tokens|);
    assert FirstIndex(tokens, Parses, false) == None;
    var expected := TokenValues(tokens) + Zeros(n - |tokens|);
    assert forall k :: 0 <= k < n ==> expected[k] == cells[k];
    assert expected == cells;
  }

  /** A token that fails to parse after only parsable ones is the first bad token. */
  lemma FirstBadToken(tokens: seq<string>, n: nat, i: nat)
    requires i < |tokens| && i <= n && !Parses(tokens[i])
    requires forall k :: 0 <= k < i ==> Parses(tokens[k])
    ensures DecodeGridSpec(tokens, n) == Err(BadValue("data", tokens[i]))
  {
    FirstBadIndex(tokens, i);
  }

  lemma FirstBadIndex(tokens: seq<string>, i: nat)
    requires i < |tokens| && !Parses(tokens[i])
    requires forall k :: 0 <= k < i ==> Parses(tokens[k])
    ensures FirstIndex(tokens, Parses, false) == Some(i)
  {
    FirstIndexAt(tokens, Parses, false, i);
  }

  /** When the first `i` tokens all parse, a bad token, if any, lies at `i` or later. */
  lemma BadTokenBeyond(tokens: seq<string>, i: nat)
    requires i <= |tokens|
    requires forall k :: 0 <= k < i ==> Parses(tokens[k])
    ensures FirstIndex(tokens, Parses, false).Some? ==> FirstIndex(tokens, Parses, false).value >= i
  {
  }

  // ------------------------------------------------------------ what the grid holds

  /** The grid decodes exactly when every token is a `u8` and there are at most `n` of
      them; then it has `n` cells, cell `i` holds token `i`, and the cells after the
      last token stay 0. */
  lemma GridCells(tokens: seq<string>, n: nat)
    ensures DecodeGridSpec(tokens, n).Ok? <==>
      (forall k :: 0 <= k < |tokens| ==> Parses(tokens[k])) && |tokens| <= n
    ensures DecodeGridSpec(tokens, n).Ok? ==>
      var cells := DecodeGridSpec(tokens, n).value;
      |cells| == n &&
      (forall k :: 0 <= k < |tokens| ==> cells[k] == TokenValue(tokens[k])) &&
      (forall k :: |tokens| <= k < n ==> cells[k] == 0)
  {
    var bad := FirstIndex(tokens, Parses, false);
    if bad.Some? {
      assert !Parses(tokens[bad.value]);
    }
  }

  /** More tokens than cells is an out-of-bounds failure (once the tokens up to the first
      excess one parse). */
  lemma TooManyTokens(tokens: seq<string>, n: nat)
    requires |tokens| > n
    requires forall k :: 0 <= k <= n ==> Parses(tokens[k])
    ensures DecodeGridSpec(tokens, n) == Err(IndexOutOfBounds(n, n))
  {
    BadTokenBeyond(tokens, n + 1);
  }

  /** A `data` text whose last non-blank character is a comma never decodes: the empty
      token after the comma is not a `u8`. */
  lemma TrailingCommaFails(text: string, n: nat)
    requires |StripWhitespace(text)| > 0 && StripWhitespace(text)[|StripWhitespace(text)| - 1] == ','
    ensures DecodeGridSpec(Tokens(text), n).Err?
  {
    var stripped := StripWhitespace(text);
    var body := stripped[..|stripped| - 1];
    LastElement(stripped);
    SplitEndsEmpty(body, ',');
    EmptyLastTokenFails(Split(body + [','], ','), n);
  }

  lemma LastElement(s: string)
    requires |s| > 0
    ensures s == s[..|s| - 1] + [s[|s| - 1]]
  {
  }

  /** An empty last token makes the grid fail, on a bad value or on too many tokens. */
  lemma EmptyLastTokenFails(tokens: seq<string>, n: nat)
    requires |tokens| >= 1 && tokens[|tokens| - 1] == ""
    ensures DecodeGridSpec(tokens, n).Err?
  {
    assert !Parses(tokens[|tokens| - 1]);
    if |tokens| <= n {
      assert FirstIndex(tokens, Parses, false).Some?;
    }
  }

  /** Text ending in the separator splits into pieces ending with an empty one. */
  lemma {:induction false} SplitEndsEmpty(s: string, sep: char)
    ensures var parts := Split(s + [sep], sep); |parts| >= 2 && parts[|parts| - 1] == ""
  {
    if s == [] {
      assert [] + [sep] == [sep];
      assert Split([sep], sep) == [""] + Split([], sep);
    } else {
      assert (s + [sep])[1..] == s[1..] + [sep];
      SplitEndsEmpty(s[1..], sep);
    }
  }

  // ------------------------------------------------------------ writing a grid

  /** The cells as a map editor writes them: decimal numbers separated by commas. */
  function EncodeGrid(cells: seq<u8>): string
    requires |cells| >= 1
  {
    Join(CellTexts(cells), ',')
  }

  function CellTexts(cells: seq<u8>): (ts: seq<string>)
    ensures |ts| == |cells|
    ensures forall k :: 0 <= k < |cells| ==> ts[k] == NatToDecimal(cells[k])
  {
    seq(|cells|, k requires 0 <= k < |cells| => NatToDecimal(cells[k]))
  }

  lemma {:induction false} JoinedDigitsHaveNoWhitespace(ts: seq<string>)
    requires |ts| >= 1
    requires forall k :: 0 <= k < |ts| ==> AllDigits(ts[k])
    ensures forall i :: 0 <= i < |Join(ts, ',')| ==> !IsWhitespace(Join(ts, ',')[i])
  {
    if |ts| > 1 {
      JoinedDigitsHaveNoWhitespace(ts[1..]);
      var j := Join(ts, ',');
      var rest := Join(ts[1..], ',');
      assert j == ts[0] + [','] + rest;
      forall i | 0 <= i < |j| ensures !IsWhitespace(j[i]) {
        if i < |ts[0]| {
          assert j[i] == ts[0][i];
        } else if i > |ts[0]| {
          assert j[i] == rest[i - |ts[0]| - 1];
        }
      }
    }
  }

  /** A written grid of `n` cells reads back as those cells. */
  lemma GridRoundTrip(cells: seq<u8>)
    requires |cells| >= 1
    ensures DecodeGridSpec(Tokens(EncodeGrid(cells)), |cells|) == Ok(cells)
  {
    var ts := CellTexts(cells);
    JoinedDigitsHaveNoWhitespace(ts);
    StripNoWhitespace(EncodeGrid(cells));
    assert forall k :: 0 <= k < |ts| ==> ',' !in ts[k];
    SplitJoin(ts, ',');
    assert Tokens(EncodeGrid(cells)) == ts;
    forall k | 0 <= k < |ts| ensures ParseU8(ts[k]) == Some(cells[k]) {
      ParseUnsignedRoundTrip(cells[k], U8_LIMIT);
    }
    assert FirstIndex(ts, Parses, false) == None;
    var got := TokenValues(ts) + Zeros(0);
    assert got == cells by {
      assert forall k :: 0 <= k < |cells| ==> got[k] == cells[k];
    }
  }

  /** Whitespace anywhere in the text, newlines between rows included, changes nothing. */
  lemma WhitespaceIgnored(before: string, blank: string, after: string)
    requires forall i :: 0 <= i < |blank| ==> IsWhitespace(blank[i])
    ensures Tokens(before + blank + after) == Tokens(before + after)
  {
    StripConcat(before + blank, after);
    StripConcat(before, blank);
    StripConcat(before, after);
    StripAllWhitespace(blank);
    assert StripWhitespace(before) + "" == StripWhitespace(before);
  }

  lemma {:induction false} StripAllWhitespace(blank: string)
    requires forall i :: 0 <= i < |blank| ==> IsWhitespace(blank[i])
    ensures StripWhitespace(blank) == ""
  {
    if blank != [] {
      StripAllWhitespace(blank[1..]);
    }
  }
}
