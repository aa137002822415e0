/** Escaping and splitting of owner messages (store/app/admin/telegram_sender.py). */
module Telegram {

  // ---------------------------------------------------------------- reading Markdown

  /** The length of the first unit: a backslash and the character it escapes, or one character. */
  function UnitLength(text: string): (n: nat)
    requires text != ""
    ensures 1 <= n <= |text|
  {
    if text[0] == '\\' && |text| > 1 then 2 else 1
  }

  /** How often the marker occurs unescaped. */
  function Active(text: string, marker: char): nat {
    if text == "" then 0 else UnitActive(text, marker) + Active(text[UnitLength(text)..], marker)
  }

  function UnitActive(text: string, marker: char): nat
    requires text != ""
  {
    if text[0] != '\\' && text[0] == marker then 1 else 0
  }

  lemma ActiveCons(text: string, marker: char)
    requires text != ""
    ensures Active(text, marker) == UnitActive(text, marker) + Active(text[UnitLength(text)..], marker)
  {
  }

  predicate Even(n: nat) {
    n % 2 == 0
  }

  /** Markers in pairs, brackets and parentheses in equal numbers. */
  predicate Balanced(text: string) {
    && Even(Active(text, '*')) && Even(Active(text, '_')) && Even(Active(text, '`'))
    && Active(text, '[') == Active(text, ']') && Active(text, '(') == Active(text, ')')
  }

  /** Position k lies between two units of the text, not inside an escape pair. */
  predicate Aligned(text: string, k: nat)
    requires k <= |text|
    decreases |text|
  {
    if k == 0 then true
    else UnitLength(text) <= k && Aligned(text[UnitLength(text)..], k - UnitLength(text))
  }

  lemma {:induction false} ActiveSplits(text: string, k: nat, marker: char)
    requires k <= |text| && Aligned(text, k)
    ensures Active(text, marker) == Active(text[..k], marker) + Active(text[k..], marker)
    decreases |text|
  {
    if k == 0 {
      assert text[..0] == "" && text[0..] == text;
    } else {
      ActiveCons(text, marker);
      ActiveCons(text[..k], marker);
      hide Active;
      var n := UnitLength(text);
      ActiveSplits(text[n..], k - n, marker);
      assert text[..k][n..] == text[n..][..k - n];
      assert text[n..][k - n..] == text[k..];
    }
  }

  lemma BalancedSplits(text: string, k: nat)
    requires k <= |text| && Aligned(text, k) && Balanced(text) && Balanced(text[..k])
    ensures Balanced(text[k..])
  {
    hide Active, Aligned;
    ActiveSplits(text, k, '*');
    ActiveSplits(text, k, '_');
    ActiveSplits(text, k, '`');
    ActiveSplits(text, k, '[');
    ActiveSplits(text, k, ']');
    ActiveSplits(text, k, '(');
    ActiveSplits(text, k, ')');
  }

  lemma {:induction false} AlignedNext(text: string, i: nat)
    requires i < |text| && Aligned(text, i)
    ensures text[i] != '\\' ==> Aligned(text, i + 1)
    ensures text[i] == '\\' && i + 1 < |text| ==> !Aligned(text, i + 1) && Aligned(text, i + 2)
    decreases |text|
  {
    if i > 0 {
      var n := UnitLength(text);
      AlignedNext(text[n..], i - n);
    }
  }

  lemma ActiveOne(c: char, marker: char)
    ensures Active([c], marker) == if c != '\\' && c == marker then 1 else 0
  {
    assert [c][1..] == "";
  }

  lemma ActiveGrows(text: string, i: nat, marker: char)
    requires i < |text| && Aligned(text, i) && text[i] != '\\'
    ensures Active(text[..i + 1], marker) == Active(text[..i], marker) + (if text[i] == marker then 1 else 0)
  {
    hide Active;
    AlignedPrefix(text, i, i + 1);
    ActiveSplits(text[..i + 1], i, marker);
    assert text[..i + 1][..i] == text[..i] && text[..i + 1][i..] == [text[i]];
    ActiveOne(text[i], marker);
  }

  lemma ActivePair(c: char, marker: char)
    ensures Active(['\\', c], marker) == 0
  {
    assert ['\\', c][2..] == "";
  }

  lemma ActiveSkips(text: string, i: nat, marker: char)
    requires i + 1 < |text| && Aligned(text, i) && text[i] == '\\'
    ensures Active(text[..i + 2], marker) == Active(text[..i], marker)
  {
    hide Active;
    AlignedPrefix(text, i, i + 2);
    ActiveSplits(text[..i + 2], i, marker);
    assert text[..i + 2][..i] == text[..i] && text[..i + 2][i..] == ['\\', text[i + 1]];
    ActivePair(text[i + 1], marker);
  }

  /** Alignment depends on what stands before the position only. */
  lemma {:induction false} AlignedPrefix(text: string, k: nat, m: nat)
    requires k <= m <= |text| && Aligned(text, k)
    ensures Aligned(text[..m], k)
    decreases |text|
  {
    if k > 0 {
      var n := UnitLength(text);
      AlignedPrefix(text[n..], k - n, m - n);
      assert text[..m][n..] == text[n..][..m - n];
    }
  }

  // ---------------------------------------------------------------- where to cut

  /** A position the scan of `_safe_cut_point` accepts: right after a plain character, with every
      marker before it closed. */
  predicate Safe(text: string, k: nat)
    requires k <= |text|
  {
    k > 0 && Aligned(text, k - 1) && text[k - 1] != '\\' && Balanced(text[..k])
  }

  /** The last safe position up to n, or 0. */
  function LastSafe(text: string, n: nat): (k: nat)
    requires n <= |text|
    ensures k <= n && (k > 0 ==> Safe(text, k))
    ensures forall m :: k < m <= n ==> !Safe(text, m)
  {
    if n == 0 then 0 else if Safe(text, n) then n else LastSafe(text, n - 1)
  }

  /** The last newline at index `n` or before, or -1: `rfind` with an exclusive end. */
  function LastNewline(text: string, n: int): (k: int)
    requires -1 <= n < |text|
    ensures -1 <= k <= n && (k >= 0 ==> text[k] == '\n')
    ensures forall m :: k < m <= n ==> text[m] != '\n'
    decreases n + 1
  {
    if n < 0 then -1 else if text[n] == '\n' then n else LastNewline(text, n - 1)
  }

  function Preferred(text: string, maxLength: nat): (k: nat)
    requires 1 <= maxLength < |text|
    ensures 1 <= k <= maxLength
  {
    var newline := LastNewline(text, maxLength);
    if newline <= 0 then maxLength else newline
  }

  function Cut(text: string, maxLength: nat): (k: nat)
    requires 1 <= maxLength < |text|
    ensures 1 <= k <= maxLength
  {
    var safe := LastSafe(text, Preferred(text, maxLength));
    if safe > 0 then safe else Preferred(text, maxLength)
  }

  /** The scan found a balanced position. */
  predicate FoundSafe(text: string, maxLength: nat)
    requires 1 <= maxLength < |text|
  {
    LastSafe(text, Preferred(text, maxLength)) > 0
  }

  /** A found position is never inside an escape pair; the fallback is exactly when the pair straddles
      the preferred position. */
  lemma CutInsidePairExactly(text: string, maxLength: nat)
    requires 1 <= maxLength < |text|
    ensures Aligned(text, Cut(text, maxLength)) <==>
      FoundSafe(text, maxLength) || Aligned(text, Preferred(text, maxLength))
  {
    if FoundSafe(text, maxLength) {
      AlignedNext(text, Cut(text, maxLength) - 1);
    }
  }

  /** Where the window for a cut ends: at the last newline it may be cut at, if there is one. */
  predicate IsWindow(text: string, maxLength: nat, window: nat)
    requires maxLength < |text|
  {
    && 1 <= window <= maxLength
    && (forall m :: window < m <= maxLength ==> text[m] != '\n')
    && (text[window] != '\n' ==> window == maxLength && forall m :: 1 <= m <= maxLength ==> text[m] != '\n')
  }

  /** The cut is the last safe position of the window, or its end when it has none. */
  lemma CutExactly(text: string, maxLength: nat, window: nat)
    requires 1 <= maxLength < |text| && IsWindow(text, maxLength, window)
    ensures var cut := Cut(text, maxLength);
      && 1 <= cut <= window
      && (Safe(text, cut) || cut == window)
      && (Safe(text, cut) ==> forall m :: cut < m <= window ==> !Safe(text, m))
      && (!Safe(text, cut) ==> forall m :: 1 <= m <= window ==> !Safe(text, m))
  {
    hide Safe;
    assert Preferred(text, maxLength) == window;
  }

  predicate Plain(text: string) {
    forall i :: 0 <= i < |text| ==> text[i] !in "\\*_`[]()"
  }

  lemma {:induction false} PlainAligned(text: string, k: nat)
    requires k <= |text| && Plain(text[..k])
    ensures Aligned(text, k)
  {
    if k > 0 {
      assert text[..k][0] == text[0];
      assert text[1..][..k - 1] == text[..k][1..];
      PlainAligned(text[1..], k - 1);
    }
  }

  lemma {:induction false} PlainInactive(text: string, marker: char)
    requires Plain(text) && marker in "*_`[]()"
    ensures Active(text, marker) == 0
  {
    if text != "" {
      PlainInactive(text[1..], marker);
    }
  }

  /** A text without markers is cut exactly at the last newline that leaves the chunk within the limit,
      or at the limit when there is none. */
  lemma PlainCutExactly(text: string, maxLength: nat, window: nat)
    requires 1 <= maxLength < |text| && IsWindow(text, maxLength, window) && Plain(text[..window])
    ensures Cut(text, maxLength) == window
  {
    hide Active, Aligned, Cut;
    CutExactly(text, maxLength, window);
    assert text[..window - 1] == text[..window][..window - 1];
    PlainAligned(text, window - 1);
    assert text[window - 1] == text[..window][window - 1];
    forall m | m in "*_`[]()"
      ensures Active(text[..window], m) == 0
    {
      PlainInactive(text[..window], m);
    }
    assert Safe(text, window);
  }

  // ---------------------------------------------------------------- the scan

  /** The scan's counts are those of the text before it. */
  predicate Counted(before: string, counts: map<char, nat>) {
    && counts.Keys == {'*', '_', '`', '[', ']', '(', ')'}
    && forall m :: m in counts ==> counts[m] == Active(before, m)
  }

  lemma CountedSkips(text: string, i: nat, counts: map<char, nat>)
    requires i + 1 < |text| && Aligned(text, i) && text[i] == '\\' && Counted(text[..i], counts)
    ensures Counted(text[..i + 2], counts)
  {
    hide Active, Aligned;
    forall m | m in counts
      ensures Active(text[..i + 2], m) == Active(text[..i], m)
    {
      ActiveSkips(text, i, m);
    }
  }

  lemma CountedGrows(text: string, i: nat, counts: map<char, nat>)
    requires i < |text| && Aligned(text, i) && text[i] != '\\' && Counted(text[..i], counts)
    ensures Counted(text[..i + 1], if text[i] in counts then counts[text[i] := counts[text[i]] + 1] else counts)
  {
    hide Active, Aligned;
    forall m | m in counts
      ensures Active(text[..i + 1], m) == Active(text[..i], m) + (if text[i] == m then 1 else 0)
    {
      ActiveGrows(text, i, m);
    }
  }

  lemma CountedBalanced(before: string, counts: map<char, nat>)
    requires Counted(before, counts)
    ensures counts.Keys == {'*', '_', '`', '[', ']', '(', ')'}
    ensures Balanced(before) <==>
      counts['*'] % 2 == 0 && counts['_'] % 2 == 0 && counts['`'] % 2 == 0
      && counts['['] == counts[']'] && counts['('] == counts[')']
  {
    hide Active;
  }

  method SafeCutPoint(text: string, maxLength: nat) returns (cut: nat)
    requires 1 <= maxLength < |text|
    ensures cut == Cut(text, maxLength)
  {
    hide Active, Aligned, Counted, Balanced;
    var preferred := FindNewline(text, maxLength);
    if preferred <= 0 {
      preferred := maxLength;
    }
    assert preferred == Preferred(text, maxLength);
    var counts: map<char, nat> := map['*' := 0, '_' := 0, '`' := 0, '[' := 0, ']' := 0, '(' := 0, ')' := 0];
    var lastBalanced := 0;
    var i := 0;
    EmptyScan(text);
    while i < preferred
      invariant 0 <= lastBalanced <= i <= preferred
      invariant Aligned(text, i) && Counted(text[..i], counts)
      invariant lastBalanced == LastSafe(text, i)
    {
      var ch := text[i];
      AlignedNext(text, i);
      if ch == '\\' {
        if i + 2 > preferred {
          StraddlesUnsafe(text, i, preferred);
          i := preferred;
          break;
        }
        CountedSkips(text, i, counts);
        PairUnsafe(text, i);
        i := i + 2;
      } else {
        CountedGrows(text, i, counts);
        if ch in counts {
          counts := counts[ch := counts[ch] + 1];
        }
        i := i + 1;
        CountedBalanced(text[..i], counts);
        if counts['*'] % 2 == 0 && counts['_'] % 2 == 0 && counts['`'] % 2 == 0
            && counts['['] == counts[']'] && counts['('] == counts[')'] {
          lastBalanced := i;
        }
      }
    }
    assert lastBalanced == LastSafe(text, preferred);
    cut := if lastBalanced > 0 then lastBalanced else preferred;
  }

  /** `rfind` for a newline. */
  method FindNewline(text: string, last: nat) returns (k: int)
    requires last < |text|
    ensures k == LastNewline(text, last)
  {
    k := last;
    while k >= 0 && text[k] != '\n'
      invariant -1 <= k <= last && LastNewline(text, last) == LastNewline(text, k)
      decreases k + 1
    {
      k := k - 1;
    }
  }

  lemma EmptyScan(text: string)
    ensures Aligned(text, 0) && LastSafe(text, 0) == 0
    ensures Counted(text[..0], map['*' := 0, '_' := 0, '`' := 0, '[' := 0, ']' := 0, '(' := 0, ')' := 0])
  {
  }

  lemma PairUnsafe(text: string, i: nat)
    requires i + 1 < |text| && Aligned(text, i) && text[i] == '\\'
    ensures LastSafe(text, i + 2) == LastSafe(text, i) && LastSafe(text, i + 1) == LastSafe(text, i)
  {
    AlignedNext(text, i);
    assert !Safe(text, i + 1) && !Safe(text, i + 2);
  }

  lemma StraddlesUnsafe(text: string, i: nat, preferred: nat)
    requires i < preferred < i + 2 && preferred < |text| && Aligned(text, i) && text[i] == '\\'
    ensures LastSafe(text, preferred) == LastSafe(text, i)
  {
    assert !Safe(text, i + 1);
  }

  // ---------------------------------------------------------------- chunks

  function StripLeft(text: string): (r: string)
    ensures |r| <= |text|
  {
    if text != "" && text[0] == '\n' then StripLeft(text[1..]) else text
  }

  function StripRight(text: string): (r: string)
    ensures |r| <= |text|
  {
    if text != "" && text[|text| - 1] == '\n' then StripRight(text[..|text| - 1]) else text
  }

  /** Stripping takes off newlines, all there are. */
  lemma {:induction false} StripLeftMeans(text: string)
    ensures var r := StripLeft(text);
      && text[|text| - |r|..] == r && (r != "" ==> r[0] != '\n')
      && forall i :: 0 <= i < |text| - |r| ==> text[i] == '\n'
  {
    if text != "" && text[0] == '\n' {
      StripLeftMeans(text[1..]);
    }
  }

  lemma {:induction false} StripRightMeans(text: string)
    ensures var r := StripRight(text);
      && text[..|r|] == r && (r != "" ==> r[|r| - 1] != '\n')
      && forall i :: |r| <= i < |text| ==> text[i] == '\n'
  {
    if text != "" && text[|text| - 1] == '\n' {
      StripRightMeans(text[..|text| - 1]);
    }
  }

  /** What the loop of `split_message` makes of the remaining text. */
  function Pieces(text: string, maxLength: nat): seq<string>
    requires maxLength >= 1
    decreases |text|
  {
    if |text| <= maxLength then (if text == "" then [] else [text])
    else
      var cut := Cut(text, maxLength);
      [StripRight(text[..cut])] + Pieces(StripLeft(text[cut..]), maxLength)
  }

  predicate IsSpace(c: char) {
    c == ' ' || 9 <= c as int <= 13 || 28 <= c as int <= 31
  }

  predicate Blank(text: string) {
    forall i :: 0 <= i < |text| ==> IsSpace(text[i])
  }

  /** `split_message`. */
  method SplitMessage(text: string, maxLength: nat) returns (chunks: seq<string>)
    requires maxLength >= 1
    ensures chunks == if Blank(text) then [] else Pieces(text, maxLength)
  {
    hide Cut, Aligned, Active, StripLeft, StripRight, Pieces;
    ShortPieces(text, maxLength);
    if forall i :: 0 <= i < |text| ==> IsSpace(text[i]) {
      return [];
    }
    if |text| <= maxLength {
      return [text];
    }
    chunks := [];
    var remaining := text;
    while |remaining| > maxLength
      invariant Pieces(text, maxLength) == chunks + Pieces(remaining, maxLength)
      decreases |remaining|
    {
      var cut := SafeCutPoint(remaining, maxLength);
      LongPieces(remaining, maxLength);
      chunks := chunks + [StripRight(remaining[..cut])];
      remaining := StripLeft(remaining[cut..]);
    }
    ShortPieces(remaining, maxLength);
    if remaining != "" {
      chunks := chunks + [remaining];
    }
  }

  lemma ShortPieces(text: string, maxLength: nat)
    requires maxLength >= 1
    ensures |text| <= maxLength ==> Pieces(text, maxLength) == if text == "" then [] else [text]
  {
  }

  lemma LongPieces(text: string, maxLength: nat)
    requires 1 <= maxLength < |text|
    ensures Pieces(text, maxLength)
         == [StripRight(text[..Cut(text, maxLength)])] + Pieces(StripLeft(text[Cut(text, maxLength)..]), maxLength)
  {
  }

  /** Every chunk fits the limit. */
  lemma {:induction false} PiecesFit(text: string, maxLength: nat, k: nat)
    requires maxLength >= 1 && k < |Pieces(text, maxLength)|
    ensures |Pieces(text, maxLength)[k]| <= maxLength
    decreases |text|
  {
    hide Cut, StripLeft, StripRight;
    if |text| > maxLength {
      var cut := Cut(text, maxLength);
      if k > 0 {
        PiecesFit(StripLeft(text[cut..]), maxLength, k - 1);
      }
    }
  }

  /** The text is the chunks in order, with newlines and nothing else between them. */
  predicate Joins(text: string, chunks: seq<string>)
    decreases |chunks|
  {
    if chunks == [] then text == ""
    else
      && |chunks[0]| <= |text| && text[..|chunks[0]|] == chunks[0]
      && Joins(StripLeft(text[|chunks[0]|..]), chunks[1..])
  }

  lemma {:induction false} StripOnce(text: string, k: nat)
    requires k <= |text| && forall i :: 0 <= i < k ==> text[i] == '\n'
    ensures StripLeft(text) == StripLeft(text[k..])
  {
    if k > 0 {
      StripOnce(text[1..], k - 1);
      assert text[1..][k - 1..] == text[k..];
    } else {
      assert text[0..] == text;
    }
  }

  lemma JoinsOneMore(text: string, cut: nat, tail: seq<string>)
    requires cut <= |text| && Joins(StripLeft(text[cut..]), tail)
    ensures Joins(text, [StripRight(text[..cut])] + tail)
  {
    hide StripLeft, StripRight;
    var chunk := StripRight(text[..cut]);
    var chunks := [chunk] + tail;
    StripRightMeans(text[..cut]);
    forall i | 0 <= i < cut - |chunk|
      ensures text[|chunk|..][i] == '\n'
    {
      assert text[..cut][|chunk| + i] == '\n';
    }
    StripOnce(text[|chunk|..], cut - |chunk|);
    assert text[|chunk|..][cut - |chunk|..] == text[cut..];
    assert chunks[1..] == tail && chunks[0] == chunk;
    assert text[..cut][..|chunk|] == text[..|chunk|];
  }

  lemma {:induction false} PiecesJoin(text: string, maxLength: nat)
    requires maxLength >= 1
    ensures Joins(text, Pieces(text, maxLength))
    decreases |text|
  {
    hide Cut, StripLeft, StripRight;
    if |text| <= maxLength {
      JoinsWhole(text);
    } else {
      hide Joins;
      var cut := Cut(text, maxLength);
      PiecesJoin(StripLeft(text[cut..]), maxLength);
      JoinsOneMore(text, cut, Pieces(StripLeft(text[cut..]), maxLength));
    }
  }

  lemma JoinsWhole(text: string)
    ensures Joins(text, if text == "" then [] else [text])
  {
    assert text[|text|..] == "";
  }

  /** No chunk is empty, except the first when the text is cut inside its leading newlines. */
  lemma {:induction false} EmptyChunksExactly(text: string, maxLength: nat, k: nat)
    requires maxLength >= 1 && k < |Pieces(text, maxLength)|
    ensures Pieces(text, maxLength)[k] == "" <==>
      k == 0 && |text| > maxLength && forall i :: 0 <= i < Cut(text, maxLength) ==> text[i] == '\n'
    decreases |text|
  {
    hide Cut, StripLeft, StripRight;
    if |text| > maxLength {
      var cut := Cut(text, maxLength);
      if k > 0 {
        EmptyChunksExactly(StripLeft(text[cut..]), maxLength, k - 1);
        NeverCutInNewlines(StripLeft(text[cut..]), text[cut..]);
      } else {
        EmptyStrip(text, cut);
      }
    }
  }

  lemma EmptyStrip(text: string, cut: nat)
    requires cut <= |text|
    ensures StripRight(text[..cut]) == "" <==> forall i :: 0 <= i < cut ==> text[i] == '\n'
  {
    hide StripRight;
    StripRightMeans(text[..cut]);
    if StripRight(text[..cut]) == "" {
      forall i | 0 <= i < cut
        ensures text[i] == '\n'
      {
        assert text[..cut][i] == '\n';
      }
    }
  }

  lemma NeverCutInNewlines(rest: string, text: string)
    requires rest == StripLeft(text) && rest != ""
    ensures rest[0] != '\n'
  {
    StripLeftMeans(text);
  }

  // ---------------------------------------------------------------- balance

  /** Every cut of the text finds a balanced position. */
  predicate AllSafe(text: string, maxLength: nat)
    requires maxLength >= 1
    decreases |text|
  {
    |text| > maxLength ==>
      FoundSafe(text, maxLength) && AllSafe(StripLeft(text[Cut(text, maxLength)..]), maxLength)
  }

  lemma {:induction false} StripLeftActive(text: string, marker: char)
    requires marker != '\n'
    ensures Active(StripLeft(text), marker) == Active(text, marker)
  {
    if text != "" && text[0] == '\n' {
      StripLeftActive(text[1..], marker);
    }
  }

  lemma {:induction false} DropNewline(text: string, marker: char)
    requires text != "" && text[|text| - 1] == '\n' && marker != '\n'
    ensures Active(text[..|text| - 1], marker) == Active(text, marker)
    decreases |text|
  {
    var front := text[..|text| - 1];
    if front == "" {
      assert text[1..] == front;
    } else if text[0] == '\\' && |text| == 2 {
      assert text[2..] == front[1..] == "";
    } else {
      var n := UnitLength(text);
      assert front[n..] == text[n..][..|text| - n - 1];
      DropNewline(text[n..], marker);
    }
  }

  lemma {:induction false} StripRightActive(text: string, marker: char)
    requires marker != '\n'
    ensures Active(StripRight(text), marker) == Active(text, marker)
  {
    hide Active;
    if text != "" && text[|text| - 1] == '\n' {
      DropNewline(text, marker);
      StripRightActive(text[..|text| - 1], marker);
    }
  }

  lemma StripsKeepBalance(text: string)
    ensures Balanced(StripLeft(text)) == Balanced(text) == Balanced(StripRight(text))
  {
    hide Active, StripLeft, StripRight;
    forall m | m in "*_`[]()"
      ensures Active(StripLeft(text), m) == Active(text, m) == Active(StripRight(text), m)
    {
      StripLeftActive(text, m);
      StripRightActive(text, m);
    }
  }

  lemma CutBalanced(text: string, maxLength: nat)
    requires 1 <= maxLength < |text| && FoundSafe(text, maxLength) && Balanced(text)
    ensures Balanced(StripRight(text[..Cut(text, maxLength)])) && Balanced(StripLeft(text[Cut(text, maxLength)..]))
  {
    hide Balanced, Aligned, StripLeft, StripRight, LastNewline;
    var cut := Cut(text, maxLength);
    AlignedNext(text, cut - 1);
    BalancedSplits(text, cut);
    StripsKeepBalance(text[cut..]);
    StripsKeepBalance(text[..cut]);
  }

  lemma BalancedMeans(text: string)
    ensures Balanced(text) <==>
      && (forall m :: m in "*_`" ==> Active(text, m) % 2 == 0)
      && Active(text, '[') == Active(text, ']') && Active(text, '(') == Active(text, ')')
  {
    hide Active;
    if forall m :: m in "*_`" ==> Active(text, m) % 2 == 0 {
      assert '*' in "*_`" && '_' in "*_`" && '`' in "*_`";
      assert Even(Active(text, '*')) && Even(Active(text, '_')) && Even(Active(text, '`'));
    }
  }

  /** If the text is balanced and every cut finds a balanced position, every chunk is balanced, the
      last one, which nobody checks, included. */
  lemma {:induction false} ChunksBalanced(text: string, maxLength: nat, k: nat)
    requires maxLength >= 1 && Balanced(text) && AllSafe(text, maxLength) && k < |Pieces(text, maxLength)|
    ensures var chunk := Pieces(text, maxLength)[k];
      && Balanced(chunk)
      && (forall m :: m in "*_`" ==> Active(chunk, m) % 2 == 0)
      && Active(chunk, '[') == Active(chunk, ']') && Active(chunk, '(') == Active(chunk, ')')
    decreases |text|
  {
    BalancedMeans(Pieces(text, maxLength)[k]);
    hide Balanced, Cut, FoundSafe, StripLeft, StripRight;
    if |text| > maxLength {
      CutBalanced(text, maxLength);
      if k > 0 {
        ChunksBalanced(StripLeft(text[Cut(text, maxLength)..]), maxLength, k - 1);
      }
    }
  }

  // ---------------------------------------------------------------- escaping

  predicate Special(c: char) {
    c in "\\_*[]`"
  }

  /** Each special character gets a backslash. */
  function Escaped(text: string, specials: string): string {
    if text == "" then "" else EscapedChar(text[0], specials) + Escaped(text[1..], specials)
  }

  function EscapedChar(c: char, specials: string): (r: string)
    ensures |r| == if c in specials then 2 else 1
    ensures r[|r| - 1] == c && (c in specials ==> r[0] == '\\')
  {
    if c in specials then ['\\', c] else [c]
  }

  lemma EscapedCons(text: string, specials: string)
    requires text != ""
    ensures Escaped(text, specials) == EscapedChar(text[0], specials) + Escaped(text[1..], specials)
  {
  }

  /** `str.replace` of one character by itself after a backslash. */
  method ReplaceSpecial(text: string, special: char) returns (r: string)
    ensures r == Escaped(text, [special])
  {
    hide Escaped;
    r := "";
    WholeAndNothing(text, [special]);
    for i := 0 to |text|
      invariant Escaped(text, [special]) == r + Escaped(text[i..], [special])
    {
      assert text[i..][1..] == text[i + 1..];
      EscapedCons(text[i..], [special]);
      var unit := if text[i] == special then ['\\', text[i]] else [text[i]];
      Reassociate(r, unit, Escaped(text[i + 1..], [special]));
      r := r + unit;
    }
  }

  lemma WholeAndNothing(text: string, specials: string)
    ensures "" + Escaped(text[0..], specials) == Escaped(text, specials)
    ensures Escaped(text[|text|..], specials) == ""
  {
    assert text[0..] == text;
  }

  lemma {:induction false} EscapedJoins(a: string, b: string, specials: string)
    ensures Escaped(a + b, specials) == Escaped(a, specials) + Escaped(b, specials)
  {
    if a == "" {
      assert a + b == b;
    } else {
      EscapedCons(a, specials);
      EscapedCons(a + b, specials);
      hide Escaped, EscapedChar;
      EscapedJoins(a[1..], b, specials);
      assert (a + b)[1..] == a[1..] + b;
      Reassociate(EscapedChar(a[0], specials), Escaped(a[1..], specials), Escaped(b, specials));
    }
  }

  lemma Reassociate(a: string, b: string, c: string)
    ensures a + (b + c) == (a + b) + c
  {
  }

  /** Replacing one more character after the others is escaping with one more special, as long as
      it is not the backslash, which therefore has to come first. */
  lemma {:induction false} OneMoreSpecial(text: string, specials: string, c: char)
    requires c != '\\' && c !in specials
    ensures Escaped(Escaped(text, specials), [c]) == Escaped(text, specials + [c])
  {
    if text != "" {
      OneMoreSpecial(text[1..], specials, c);
      var unit := EscapedChar(text[0], specials);
      EscapedJoins(unit, Escaped(text[1..], specials), [c]);
      if text[0] in specials {
        assert unit[1..] == [text[0]] && unit[1..][1..] == "";
      } else {
        assert unit[1..] == "";
      }
    }
  }

  /** `escape_markdown`: the specials one after another, the backslash first. */
  method EscapeMarkdown(value: string) returns (text: string)
    ensures text == Escaped(value, "\\_*[]`")
  {
    var specials := "\\_*[]`";
    text := ReplaceSpecial(value, specials[0]);
    assert specials[..1] == [specials[0]];
    for i := 1 to |specials|
      invariant text == Escaped(value, specials[..i])
    {
      OneMoreSpecial(value, specials[..i], specials[i]);
      assert specials[..i] + [specials[i]] == specials[..i + 1];
      text := ReplaceSpecial(text, specials[i]);
    }
    assert specials[..|specials|] == specials;
  }

  /** What a reader sees: the second character of each pair. */
  function Unescaped(text: string): string {
    if text == "" then ""
    else if text[0] == '\\' && |text| > 1 then [text[1]] + Unescaped(text[2..])
    else [text[0]] + Unescaped(text[1..])
  }

  function Count(text: string, c: char): nat {
    if text == "" then 0 else (if text[0] == c then 1 else 0) + Count(text[1..], c)
  }

  /** Escaping is undone by reading, and leaves no dangling backslash. */
  lemma {:induction false} EscapeIsUndone(text: string)
    ensures var e := Escaped(text, "\\_*[]`"); Unescaped(e) == text && Aligned(e, |e|)
  {
    var e := Escaped(text, "\\_*[]`");
    if text != "" {
      EscapeIsUndone(text[1..]);
      var n := if Special(text[0]) then 2 else 1;
      assert e[n..] == Escaped(text[1..], "\\_*[]`");
    }
  }

  lemma ActiveUnit(unit: string, rest: string, marker: char)
    requires |unit| == if unit != "" && unit[0] == '\\' then 2 else 1
    ensures Active(unit + rest, marker) == (if unit[0] != '\\' && unit[0] == marker then 1 else 0)
        + Active(rest, marker)
  {
    assert (unit + rest)[|unit|..] == rest;
  }

  /** No escaped marker is active, whatever follows; parentheses are not escaped. */
  lemma {:induction false} EscapeIsSafe(text: string, after: string, marker: char)
    ensures Active(Escaped(text, "\\_*[]`") + after, marker)
         == (if Special(marker) then 0 else Count(text, marker)) + Active(after, marker)
  {
    if text == "" {
      assert Escaped(text, "\\_*[]`") + after == after;
    } else {
      EscapeIsSafe(text[1..], after, marker);
      EscapedCons(text, "\\_*[]`");
      hide Escaped, Active, EscapedChar;
      var unit, rest := EscapedChar(text[0], "\\_*[]`"), Escaped(text[1..], "\\_*[]`");
      Reassociate(unit, rest, after);
      ActiveUnit(unit, rest + after, marker);
    }
  }

  predicate AllSpecial(text: string) {
    forall i :: 0 <= i < |text| ==> Special(text[i])
  }

  /** The escape of special characters only is a row of pairs. */
  lemma {:induction false} PairsOnly(text: string, k: nat)
    requires AllSpecial(text) && k <= |Escaped(text, "\\_*[]`")|
    ensures var e := Escaped(text, "\\_*[]`");
      && |e| == 2 * |text| && (Aligned(e, k) <==> k % 2 == 0)
      && (k < |e| ==> e[k] != '\n' && (k % 2 == 0 ==> e[k] == '\\'))
  {
    if text != "" {
      EscapedCons(text, "\\_*[]`");
      assert Special(text[0]);
      var e := Escaped(text, "\\_*[]`");
      assert e[2..] == Escaped(text[1..], "\\_*[]`");
      PairsOnly(text[1..], if k >= 2 then k - 2 else 0);
    }
  }

  lemma NoNewlineFound(text: string, n: int)
    requires -1 <= n < |text| && '\n' !in text
    ensures LastNewline(text, n) == -1
  {
  }

  /** A text of escaped characters only offers no safe position, so it is cut at the limit: inside a
      pair exactly when the limit is odd. */
  lemma EscapedPairsAreCut(text: string, maxLength: nat)
    requires AllSpecial(text) && 1 <= maxLength < |Escaped(text, "\\_*[]`")|
    ensures var e := Escaped(text, "\\_*[]`");
      Cut(e, maxLength) == maxLength && (Aligned(e, Cut(e, maxLength)) <==> maxLength % 2 == 0)
  {
    var e := Escaped(text, "\\_*[]`");
    forall k | 0 <= k < |e|
      ensures (Aligned(e, k) <==> k % 2 == 0) && e[k] != '\n' && (k % 2 == 0 ==> e[k] == '\\')
    {
      PairsOnly(text, k);
    }
    NoNewlineFound(e, maxLength);
    hide Escaped, Aligned, Balanced;
    assert forall k :: 0 < k <= maxLength ==> !Safe(e, k);
  }

  /** Behind an open marker it is the even limits that cut a pair, the limit of 4096 among them. */
  lemma OpenSpanIsCut(text: string, maxLength: nat)
    requires AllSpecial(text) && 1 <= maxLength <= |Escaped(text, "\\_*[]`")|
    ensures var e := "*" + Escaped(text, "\\_*[]`");
      Cut(e, maxLength) == maxLength && (Aligned(e, Cut(e, maxLength)) <==> maxLength % 2 == 1)
  {
    var rest := Escaped(text, "\\_*[]`");
    var e := "*" + rest;
    assert e[1..] == rest;
    forall k | 0 <= k < |e|
      ensures (Aligned(e, k) <==> k == 0 || k % 2 == 1) && e[k] != '\n' && (k % 2 == 1 ==> e[k] == '\\')
    {
      if k > 0 {
        PairsOnly(text, k - 1);
      }
    }
    NoNewlineFound(e, maxLength);
    assert e[..1] == "*";
    ActiveOne('*', '*');
    assert !Balanced(e[..1]);
    hide Escaped, Aligned, Balanced;
    assert forall k :: 0 < k <= maxLength ==> !Safe(e, k);
  }

  /** So an escaped text is balanced exactly when its parentheses match in number: the scan counts
      parentheses, escaping leaves them alone. */
  lemma EscapedBalancedExactly(text: string)
    ensures Balanced(Escaped(text, "\\_*[]`")) <==> Count(text, '(') == Count(text, ')')
  {
    hide Active, Escaped, Count;
    var e := Escaped(text, "\\_*[]`");
    assert e + "" == e;
    forall m | m in "*_`[]()"
      ensures Active(e, m) == (if Special(m) then 0 else Count(text, m)) + Active("", m)
    {
      EscapeIsSafe(text, "", m);
    }
    NothingActive();
  }

  lemma NothingActive()
    ensures forall m :: Active("", m) == 0
  {
  }
}
