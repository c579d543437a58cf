/** src/domain/trading/macro_agent.py: pulling the JSON object out of a model's answer. */
module JsonBlock {
  import opened TextSplit

  const FENCE := "```"

  /** Python's `str.isspace` for one character. */
  predicate IsSpace(c: char) {
    var n := c as int;
    || 0x09 <= n <= 0x0d || 0x1c <= n <= 0x20 || n == 0x85 || n == 0xa0 || n == 0x1680
    || 0x2000 <= n <= 0x200a || n == 0x2028 || n == 0x2029 || n == 0x202f || n == 0x205f || n == 0x3000
  }

  function LStrip(s: string): (r: string)
    ensures |r| <= |s|
    ensures r != [] ==> !IsSpace(r[0])
  {
    if s != [] && IsSpace(s[0]) then LStrip(s[1..]) else s
  }

  function RStrip(s: string): (r: string)
    ensures |r| <= |s|
    ensures r != [] ==> !IsSpace(r[|r| - 1])
  {
    if s != [] && IsSpace(s[|s| - 1]) then RStrip(s[..|s| - 1]) else s
  }

  function Strip(s: string): string { RStrip(LStrip(s)) }

  predicate EndsWith(s: string, suffix: string) {
    |s| >= |suffix| && s[|s| - |suffix|..] == suffix
  }

  /** Without the opening fence line, if it ends. */
  function AfterFenceLine(text: string): string {
    var newline := IndexOf(text, '\n');
    if newline < |text| then text[newline + 1..] else text
  }

  function WithoutClosingFence(body: string): string {
    var trimmed := RStrip(body);
    if EndsWith(trimmed, FENCE) then trimmed[..|trimmed| - |FENCE|] else body
  }

  /** The answer without surrounding blanks and without a code fence. */
  function Unfenced(raw: string): string {
    var text := Strip(raw);
    if FENCE <= text then Strip(WithoutClosingFence(AfterFenceLine(text))) else text
  }

  datatype Extraction = Block(text: string) | ArrayOnTop | NoBrace | Unbalanced

  /** Opening minus closing braces. */
  function Depth(s: string): int {
    if s == [] then 0
    else
      var c := s[|s| - 1];
      Depth(s[..|s| - 1]) + if c == '{' then 1 else if c == '}' then -1 else 0
  }

  /** Length of the shortest non-empty balanced prefix not shorter than `k`, or 0. */
  function BalancedLength(s: string, k: nat): (n: nat)
    requires 1 <= k
    ensures n != 0 ==> k <= n <= |s| && Depth(s[..n]) == 0
    ensures forall j :: k <= j <= |s| && (n == 0 || j < n) ==> Depth(s[..j]) != 0
    decreases |s| - k
  {
    if k > |s| then 0 else if Depth(s[..k]) == 0 then k else BalancedLength(s, k + 1)
  }

  predicate LeadsWith(s: string, c: char) {
    LStrip(s) != [] && LStrip(s)[0] == c
  }

  function ExtractedFrom(text: string): Extraction {
    if LeadsWith(text, '[') then ArrayOnTop
    else
      var start := IndexOf(text, '{');
      if start == |text| then NoBrace
      else
        var n := BalancedLength(text[start..], 1);
        if n == 0 then Unbalanced else Block(text[start..][..n])
  }

  function Extracted(raw: string): Extraction {
    ExtractedFrom(Unfenced(raw))
  }

  // ----- the scan of the code -----

  lemma DepthSnoc(s: string, k: nat)
    requires k < |s|
    ensures Depth(s[..k + 1]) == Depth(s[..k]) + if s[k] == '{' then 1 else if s[k] == '}' then -1 else 0
  {
    assert s[..k + 1][..k] == s[..k];
  }

  /** The first loop: where the first visible character is. */
  method FirstVisible(text: string) returns (k: nat)
    ensures k <= |text| && LStrip(text) == text[k..]
  {
    k := 0;
    while k < |text| && IsSpace(text[k])
      invariant 0 <= k <= |text|
      invariant LStrip(text) == LStrip(text[k..])
    {
      assert text[k..][1..] == text[k + 1..];
      k := k + 1;
    }
  }

  /** The second loop: the length of the balanced block that `rest` begins with, or 0. */
  method ScanBraces(rest: string) returns (n: nat)
    requires rest != [] && rest[0] == '{'
    ensures n == BalancedLength(rest, 1)
  {
    var depth, i := 0, 0;
    while i < |rest|
      invariant 0 <= i <= |rest|
      invariant depth == Depth(rest[..i])
      invariant i == 0 || depth > 0
      invariant BalancedLength(rest, 1) == BalancedLength(rest, i + 1)
    {
      DepthSnoc(rest, i);
      if rest[i] == '{' {
        depth := depth + 1;
      } else if rest[i] == '}' {
        depth := depth - 1;
        if depth == 0 {
          return i + 1;
        }
      }
      i := i + 1;
    }
    n := 0;
  }

  /** `_extract_json_block`; a result other than a block is the ValueError with that cause. */
  method ExtractJsonBlock(raw: string) returns (r: Extraction)
    ensures r == Extracted(raw)
  {
    var text := Unfenced(raw);
    var k := FirstVisible(text);
    if k < |text| && text[k] == '[' {
      return ArrayOnTop;
    }
    var start := IndexOf(text, '{');
    if start == |text| {
      return NoBrace;
    }
    var n := ScanBraces(text[start..]);
    r := if n == 0 then Unbalanced else Block(text[start..][..n]);
  }

  // ----- what it returns -----

  /** Balanced as a whole, and open at every point before its end. */
  ghost predicate Minimal(b: string) {
    && b != [] && b[0] == '{'
    && Depth(b) == 0
    && forall k :: 1 <= k < |b| ==> Depth(b[..k]) > 0
  }

  lemma {:induction false} OpenUntilBalanced(s: string, k: nat)
    requires s != [] && s[0] == '{' && 1 <= k <= |s|
    requires forall j :: 1 <= j < k ==> Depth(s[..j]) != 0
    ensures forall j :: 1 <= j < k ==> Depth(s[..j]) > 0
    ensures Depth(s[..k]) >= 0
  {
    if k == 1 {
      DepthSnoc(s, 0);
    } else {
      OpenUntilBalanced(s, k - 1);
      DepthSnoc(s, k - 1);
    }
  }

  lemma ScanFinds(rest: string)
    requires rest != [] && rest[0] == '{' && BalancedLength(rest, 1) != 0
    ensures Minimal(rest[..BalancedLength(rest, 1)])
  {
    var n := BalancedLength(rest, 1);
    OpenUntilBalanced(rest, n);
    forall k | 1 <= k < n
      ensures Depth(rest[..n][..k]) > 0
    {
      assert rest[..n][..k] == rest[..k];
    }
  }

  lemma NeverBalanced(rest: string)
    requires rest != [] && BalancedLength(rest, 1) == 0
    ensures forall k :: 1 <= k <= |rest| ==> Depth(rest[..k]) != 0
  {
  }

  lemma PrefixIsOpen(rest: string, k: nat)
    requires rest != [] && rest[0] == '{' && 1 <= k <= |rest| && BalancedLength(rest, 1) == 0
    ensures Depth(rest[..k]) > 0
  {
    NeverBalanced(rest);
    OpenUntilBalanced(rest, k);
  }

  lemma ScanMisses(rest: string)
    requires rest != [] && rest[0] == '{' && BalancedLength(rest, 1) == 0
    ensures forall k :: 1 <= k <= |rest| ==> Depth(rest[..k]) > 0
  {
    forall k | 1 <= k <= |rest|
      ensures Depth(rest[..k]) > 0
    {
      PrefixIsOpen(rest, k);
    }
  }

  lemma ScanMeans(rest: string)
    requires rest != [] && rest[0] == '{'
    ensures var n := BalancedLength(rest, 1);
            && (n == 0 <==> forall k :: 1 <= k <= |rest| ==> Depth(rest[..k]) > 0)
            && (n != 0 ==> Minimal(rest[..n]))
  {
    if BalancedLength(rest, 1) == 0 {
      ScanMisses(rest);
    } else {
      ScanFinds(rest);
    }
  }

  /** In terms of the unfenced text: a block comes back exactly when the text does not lead
      with a bracket and some prefix of what follows the first brace is balanced; it is then
      the shortest such prefix.  Every failure has exactly its own cause. */
  lemma ExtractionMeans(raw: string)
    ensures var text, r := Unfenced(raw), Extracted(raw);
            var rest := text[IndexOf(text, '{')..];
            && (r.ArrayOnTop? <==> LeadsWith(text, '['))
            && (r.NoBrace? <==> !LeadsWith(text, '[') && '{' !in text)
            && (r.Unbalanced? <==>
                  !LeadsWith(text, '[') && '{' in text
                  && forall k :: 1 <= k <= |rest| ==> Depth(rest[..k]) > 0)
            && (r.Block? ==> r.text <= rest && Minimal(r.text))
  {
    var text := Unfenced(raw);
    var start := IndexOf(text, '{');
    assert '{' in text <==> start < |text|;
    if start < |text| {
      ScanMeans(text[start..]);
    }
  }

  lemma MinimalIsFound(b: string, tail: string)
    requires Minimal(b)
    ensures BalancedLength(b + tail, 1) == |b|
  {
    var s, n := b + tail, BalancedLength(b + tail, 1);
    assert s[..|b|] == b;
    forall k | 1 <= k < |b|
      ensures Depth(s[..k]) != 0
    {
      assert s[..k] == b[..k];
    }
  }

  lemma MinimalEndsClosed(b: string)
    requires Minimal(b)
    ensures |b| >= 2 && b[|b| - 1] == '}'
  {
    DepthSnoc(b, 0);
    DepthSnoc(b, |b| - 1);
    assert b[..|b|] == b;
  }

  lemma OnlyMinimalIsFound(b: string, tail: string)
    requires b != [] && b[0] == '{' && BalancedLength(b + tail, 1) == |b|
    ensures Minimal(b)
  {
    var s := b + tail;
    OpenUntilBalanced(s, |b|);
    assert s[..|b|] == b;
    forall k | 1 <= k < |b|
      ensures Depth(b[..k]) > 0
    {
      assert s[..k] == b[..k];
    }
  }

  // ----- wrapping -----

  lemma {:induction false} LStripConcat(s: string, t: string)
    requires t != [] && !IsSpace(t[0])
    ensures LStrip(s + t) == LStrip(s) + t
  {
    if s == [] {
      assert s + t == t;
    } else {
      assert (s + t)[1..] == s[1..] + t;
      if IsSpace(s[0]) { LStripConcat(s[1..], t); }
    }
  }

  lemma {:induction false} RStripConcat(s: string, t: string)
    requires s != [] && !IsSpace(s[|s| - 1])
    ensures RStrip(s + t) == s + RStrip(t)
  {
    if t == [] {
      assert s + t == s;
    } else {
      assert (s + t)[..|s + t| - 1] == s + t[..|t| - 1];
      if IsSpace(t[|t| - 1]) { RStripConcat(s, t[..|t| - 1]); }
    }
  }

  lemma {:induction false} StrippedStays(s: string)
    requires s == [] || !IsSpace(s[0])
    ensures LStrip(s) == s
  {
  }

  /** Text around a braced block, blanks stripped. */
  lemma StripAround(prose: string, b: string, tail: string)
    requires b != [] && !IsSpace(b[0]) && !IsSpace(b[|b| - 1])
    ensures Strip(prose + b + tail) == LStrip(prose) + b + RStrip(tail)
  {
    assert prose + b + tail == prose + (b + tail);
    LStripConcat(prose, b + tail);
    assert LStrip(prose) + (b + tail) == (LStrip(prose) + b) + tail;
    RStripConcat(LStrip(prose) + b, tail);
  }

  /** Around the block: no brace before it, and no bracket or fence in front. */
  ghost predicate Harmless(prose: string) {
    '{' !in prose && !LeadsWith(prose, '[') && !(FENCE <= LStrip(prose))
  }

  lemma ScanAfterProse(lead: string, b: string, tail: string)
    requires '{' !in lead && LStrip(lead) == lead && !LeadsWith(lead, '[')
    requires b != [] && b[0] == '{'
    ensures ExtractedFrom(lead + b + tail) == Block(b) <==> Minimal(b)
  {
    var text := lead + b + tail;
    assert text == lead + ['{'] + (b[1..] + tail);
    IndexAfterClean(lead, b[1..] + tail, '{');
    assert text[|lead|..] == b + tail;
    assert text[0] == if lead == [] then '{' else lead[0];
    StrippedStays(text);
    if Minimal(b) {
      MinimalIsFound(b, tail);
      assert (b + tail)[..|b|] == b;
    } else if BalancedLength(b + tail, 1) == |b| {
      OnlyMinimalIsFound(b, tail);
    }
  }

  lemma NoFenceInFront(lead: string, rest: string)
    requires rest != [] && rest[0] == '{' && !(FENCE <= lead)
    ensures !(FENCE <= lead + rest)
  {
    var s := lead + rest;
    if |lead| < 3 {
      assert s[|lead|] == '{' && FENCE[|lead|] == '`';
    } else {
      assert s[..3] == lead[..3];
    }
  }

  lemma {:induction false} LStripIsSuffix(s: string)
    ensures LStrip(s) == s[|s| - |LStrip(s)|..]
  {
    if s != [] && IsSpace(s[0]) {
      LStripIsSuffix(s[1..]);
    }
  }

  lemma UnfencedPlain(raw: string, text: string)
    requires Strip(raw) == text && !(FENCE <= text)
    ensures Unfenced(raw) == text
  {
  }

  lemma NoFenceAround(lead: string, b: string, end: string)
    requires !(FENCE <= lead) && b != [] && b[0] == '{'
    ensures !(FENCE <= lead + b + end)
  {
    assert lead + b + end == lead + (b + end);
    NoFenceInFront(lead, b + end);
  }

  lemma BracesAreVisible()
    ensures !IsSpace('{') && !IsSpace('}')
  {
  }

  lemma UnfencedProse(prose: string, b: string, tail: string)
    requires !(FENCE <= LStrip(prose)) && b != [] && b[0] == '{' && b[|b| - 1] == '}'
    ensures Unfenced(prose + b + tail) == LStrip(prose) + b + RStrip(tail)
  {
    BracesAreVisible();
    StripAround(prose, b, tail);
    NoFenceAround(LStrip(prose), b, RStrip(tail));
    UnfencedPlain(prose + b + tail, LStrip(prose) + b + RStrip(tail));
  }

  /** Prose before and anything at all after a block: it is extracted exactly when it is
      minimal by brace counting alone. */
  lemma ProseIsIgnored(prose: string, b: string, tail: string)
    requires Harmless(prose) && b != [] && b[0] == '{' && b[|b| - 1] == '}'
    ensures Extracted(prose + b + tail) == Block(b) <==> Minimal(b)
  {
    var lead := LStrip(prose);
    UnfencedProse(prose, b, tail);
    assert '{' !in lead by {
      LStripIsSuffix(prose);
    }
    StrippedStays(lead);
    ScanAfterProse(lead, b, RStrip(tail));
  }

  lemma FenceLineOff(tag: string, body: string)
    requires '\n' !in tag && body != [] && body[|body| - 1] == '`'
    ensures var raw := FENCE + tag + ['\n'] + body;
            Strip(raw) == raw && FENCE <= raw && AfterFenceLine(raw) == body
  {
    var raw := FENCE + tag + ['\n'] + body;
    assert raw[0] == '`' && raw[|raw| - 1] == '`';
    StrippedStays(raw);
    IndexAfterClean(FENCE + tag, body, '\n');
    assert raw[|FENCE + tag| + 1..] == body;
  }

  lemma ClosingFenceOff(b: string)
    ensures WithoutClosingFence(b + ['\n'] + FENCE) == b + ['\n']
  {
    var body := b + ['\n'] + FENCE;
    assert body[|body| - 1] == '`';
    assert RStrip(body) == body;
    assert body[|body| - |FENCE|..] == FENCE;
    assert body[..|body| - |FENCE|] == b + ['\n'];
  }

  lemma TrailingNewlineOff(b: string)
    requires b != [] && !IsSpace(b[0]) && !IsSpace(b[|b| - 1])
    ensures Strip(b + ['\n']) == b
  {
    StrippedStays(b + ['\n']);
    assert (b + ['\n'])[..|b|] == b;
    assert RStrip(b) == b;
  }

  /** A fenced block, with any language tag, comes back unchanged. */
  lemma FenceIsRemoved(tag: string, b: string)
    requires '\n' !in tag && Minimal(b)
    ensures Extracted("```" + tag + ['\n'] + (b + ['\n'] + "```")) == Block(b)
  {
    var body := b + ['\n'] + FENCE;
    MinimalEndsClosed(b);
    FenceLineOff(tag, body);
    ClosingFenceOff(b);
    TrailingNewlineOff(b);
    assert Unfenced(FENCE + tag + ['\n'] + body) == b;
    ScanAfterProse([], b, []);
    assert [] + b + [] == b;
  }

  /** One that is never closed comes back too... */
  lemma OpenFenceIsRemoved(tag: string, b: string)
    requires '\n' !in tag && Minimal(b)
    ensures Extracted("```" + tag + ['\n'] + b) == Block(b)
  {
    MinimalEndsClosed(b);
    var raw := FENCE + tag + ['\n'] + b;
    assert raw[0] == '`' && raw[|raw| - 1] == '}';
    StrippedStays(raw);
    IndexAfterClean(FENCE + tag, b, '\n');
    assert AfterFenceLine(raw) == b;
    NoClosingFence(b);
    ScanAfterProse([], b, []);
    EmptyProse(b, []);
    assert b + [] == b;
  }

  lemma NoClosingFence(b: string)
    requires b != [] && b[0] == '{' && b[|b| - 1] == '}'
    ensures WithoutClosingFence(b) == b && Strip(b) == b
  {
    StrippedStays(b);
    assert RStrip(b) == b;
    assert |b| >= 3 ==> b[|b| - 3..][2] == '}';
  }

  /** ... and so does one on a single line. */
  lemma OneLineFenceIsRemoved(b: string)
    requires '\n' !in b && Minimal(b)
    ensures Extracted("```" + b + "```") == Block(b)
  {
    MinimalEndsClosed(b);
    var raw := FENCE + b + FENCE;
    assert raw[0] == '`' && raw[|raw| - 1] == '`';
    StrippedStays(raw);
    assert Strip(raw) == raw;
    IndexOfClean(raw, '\n');
    assert AfterFenceLine(raw) == raw;
    assert raw[|raw| - 3..] == FENCE && raw[..|raw| - 3] == FENCE + b;
    var text := FENCE + b;
    assert text[0] == '`' && text[|text| - 1] == '}';
    StrippedStays(text);
    assert Strip(text) == text;
    StrippedStays(FENCE);
    ScanAfterProse(FENCE, b, []);
    assert FENCE + b + [] == FENCE + b;
  }

  /** The depth is the number of opening less the number of closing braces. */
  lemma {:induction false} DepthCountsBraces(s: string)
    ensures Depth(s) + multiset(s)['}'] == multiset(s)['{']
  {
    if s != [] {
      DepthCountsBraces(s[..|s| - 1]);
      assert s == s[..|s| - 1] + [s[|s| - 1]];
    }
  }

  lemma {:induction false} BlanksVanish(blanks: string)
    requires forall c :: c in blanks ==> c in " \t\r\n"
    ensures LStrip(blanks) == []
  {
    if blanks != [] {
      assert blanks[0] in blanks;
      BlanksVanish(blanks[1..]);
    }
  }

  /** An answer that begins with a bracket, blanks aside, is refused whatever follows. */
  lemma ArrayIsRefused(blanks: string, rest: string)
    requires forall c :: c in blanks ==> c in " \t\r\n"
    ensures Extracted(blanks + "[" + rest) == ArrayOnTop
  {
    BlanksVanish(blanks);
    StripAround(blanks, "[", rest);
    var text := "[" + RStrip(rest);
    assert Strip(blanks + "[" + rest) == text && text[0] == '[';
    UnfencedPlain(blanks + "[" + rest, text);
    StrippedStays(text);
  }

  const CUT: string := ['{', '\"', 'a', '\"', ':', '\"', '}']

  lemma CutIsMinimal()
    ensures Minimal(CUT)
  {
    DepthSnoc(CUT, 0);
    DepthSnoc(CUT, 1);
    DepthSnoc(CUT, 2);
    DepthSnoc(CUT, 3);
    DepthSnoc(CUT, 4);
    DepthSnoc(CUT, 5);
    DepthSnoc(CUT, 6);
    assert CUT[..7] == CUT && CUT[..0] == [];
  }

  /** The quote and the brace that belong to the object as well. */
  const CUT_OFF: string := ['\"', '}']

  lemma NothingIsHarmless()
    ensures Harmless([])
  {
  }

  lemma MinimalIsExtracted(prose: string, b: string, tail: string)
    requires Harmless(prose) && Minimal(b)
    ensures Extracted(prose + b + tail) == Block(b)
  {
    MinimalEndsClosed(b);
    ProseIsIgnored(prose, b, tail);
  }

  lemma EmptyProse(b: string, tail: string)
    ensures [] + b + tail == b + tail
  {
  }

  /** Brace counting does not know about strings: the valid JSON object that goes on with a
      quote and the real closing brace is cut short in the middle of its string. */
  lemma BraceInStringCutsBlock()
    ensures Extracted(CUT + CUT_OFF) == Block(CUT)
  {
    NothingIsHarmless();
    CutIsMinimal();
    MinimalIsExtracted([], CUT, CUT_OFF);
    EmptyProse(CUT, CUT_OFF);
  }
}
