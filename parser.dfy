/** The level-element parser (src/redoxbombs/game_element/parser.rs). A level's
    element text holds one element per line, `Name x y [more arguments]`; blank
    lines and lines starting with `#` are skipped. The loader groups the
    argument lists by name, and the generators turn them into game elements,
    reading unsigned integers from the arguments. Where the source panics
    (`expect`, `unwrap`), the model returns a `LoadError`. */
module Parser {
  import opened Seqs
  import opened Wrappers
  import opened Coords
  import opened Elements
  import opened PlayerElement
  import opened EnemyElement

  // ---------------------------------------------------------------------
  // Text: lines, trimming and whitespace splitting
  // ---------------------------------------------------------------------

  /** `char::is_whitespace`: the Unicode White_Space property, which `trim` and
      `split_whitespace` use. */
  predicate IsWhitespace(c: char) {
    var n := c as int;
    || (9 <= n <= 13) || n == 0x20 || n == 0x85 || n == 0xA0 || n == 0x1680
    || (0x2000 <= n <= 0x200A) || n == 0x2028 || n == 0x2029 || n == 0x202F
    || n == 0x205F || n == 0x3000
  }

  /** The text cut at every line feed. */
  function Lines(s: string): (r: seq<string>)
    ensures |r| >= 1
    ensures forall i :: 0 <= i < |r| ==> '\n' !in r[i]
  {
    if s == [] then [[]]
    else
      var rest := Lines(s[1..]);
      if s[0] == '\n' then [[]] + rest
      else [[s[0]] + rest[0]] + rest[1..]
  }

  /** The lines put back together, a line feed between each two. */
  function JoinLines(lines: seq<string>): string
    requires |lines| >= 1
  {
    if |lines| == 1 then lines[0] else lines[0] + "\n" + JoinLines(lines[1..])
  }

  /** Cutting into lines loses nothing: joining the lines gives the text back. */
  lemma {:induction false} LinesRoundTrip(s: string)
    ensures JoinLines(Lines(s)) == s
  {
    if s != [] {
      var rest := Lines(s[1..]);
      LinesRoundTrip(s[1..]);
      if s[0] == '\n' {
        assert ([[]] + rest)[1..] == rest;
      } else if |rest| == 1 {
        assert s == [s[0]] + s[1..];
      } else {
        var lines := [[s[0]] + rest[0]] + rest[1..];
        assert lines[1..] == rest[1..];
        calc {
          JoinLines(lines);
          ([s[0]] + rest[0]) + "\n" + JoinLines(rest[1..]);
          { assert s[1..] == rest[0] + "\n" + JoinLines(rest[1..]); }
          [s[0]] + s[1..];
          s;
        }
      }
    }
  }

  /** A run of whitespace, possibly empty. */
  predicate IsBlank(w: string) {
    forall k :: 0 <= k < |w| ==> IsWhitespace(w[k])
  }

  /** The first index at or after `i` whose character is not whitespace, or
      the end of the text. */
  function SkipBlank(s: string, i: nat): (r: nat)
    requires i <= |s|
    ensures i <= r <= |s|
    ensures forall k :: i <= k < r ==> IsWhitespace(s[k])
    ensures r < |s| ==> !IsWhitespace(s[r])
    decreases |s| - i
  {
    if i < |s| && IsWhitespace(s[i]) then SkipBlank(s, i + 1) else i
  }

  /** The first index at or after `i` whose character is whitespace, or the
      end of the text. */
  function SkipToken(s: string, i: nat): (r: nat)
    requires i <= |s|
    ensures i <= r <= |s|
    ensures forall k :: i <= k < r ==> !IsWhitespace(s[k])
    ensures r < |s| ==> IsWhitespace(s[r])
    decreases |s| - i
  {
    if i < |s| && !IsWhitespace(s[i]) then SkipToken(s, i + 1) else i
  }

  /** One past the last character before `j` that is not whitespace, or 0. */
  function BlankTail(s: string, j: nat): (r: nat)
    requires j <= |s|
    ensures r <= j
    ensures forall k :: r <= k < j ==> IsWhitespace(s[k])
    ensures r > 0 ==> !IsWhitespace(s[r - 1])
    decreases j
  {
    if j > 0 && IsWhitespace(s[j - 1]) then BlankTail(s, j - 1) else j
  }

  /** Where the trimmed text starts. */
  function TrimOffset(s: string): nat
    ensures TrimOffset(s) <= |s|
  {
    SkipBlank(s, 0)
  }

  /** `trim`: the stretch of the text from its first to its last character
      that is not whitespace, with only whitespace before and after it; empty
      exactly when the text is all whitespace. */
  function Trim(s: string): (r: string)
    ensures TrimOffset(s) + |r| <= |s| && r == s[TrimOffset(s)..TrimOffset(s) + |r|]
    ensures IsBlank(s[..TrimOffset(s)]) && IsBlank(s[TrimOffset(s) + |r|..])
    ensures r != [] ==> !IsWhitespace(r[0]) && !IsWhitespace(r[|r| - 1])
    ensures r == [] <==> IsBlank(s)
  {
    var i := SkipBlank(s, 0);
    var j := BlankTail(s, |s|);
    if i < |s| then
      assert i < j;
      s[i..j]
    else
      []
  }

  /** Trimming twice trims no more than trimming once. */
  lemma TrimIdempotent(s: string)
    ensures Trim(Trim(s)) == Trim(s)
  {
    var r := Trim(s);
    if r != [] {
      assert SkipBlank(r, 0) == 0;
      assert BlankTail(r, |r|) == |r|;
    }
  }

  /** A token of `split_whitespace`: non-empty and free of whitespace. */
  predicate IsToken(t: string) {
    t != [] && forall k :: 0 <= k < |t| ==> !IsWhitespace(t[k])
  }

  /** `split_whitespace`: the maximal whitespace-free stretches of the text,
      in order. */
  function SplitWhitespace(s: string): seq<string>
    decreases |s|
  {
    var a := SkipBlank(s, 0);
    if a == |s| then []
    else
      var b := SkipToken(s, a);
      [s[a..b]] + SplitWhitespace(s[b..])
  }

  /** The split is empty exactly when the text is all whitespace. */
  lemma SplitEmpty(s: string)
    ensures SplitWhitespace(s) == [] <==> IsBlank(s)
  {
  }

  /** Every piece of a split is a token. */
  lemma {:induction false} SplitTokens(s: string)
    ensures forall t :: 0 <= t < |SplitWhitespace(s)| ==> IsToken(SplitWhitespace(s)[t])
    decreases |s|
  {
    var a := SkipBlank(s, 0);
    if a < |s| {
      var b := SkipToken(s, a);
      SplitTokens(s[b..]);
      var r := SplitWhitespace(s);
      forall t | 0 <= t < |r|
        ensures IsToken(r[t])
      {
        if t > 0 {
          assert r[t] == SplitWhitespace(s[b..])[t - 1];
        }
      }
    }
  }

  /** Tokens laid out with whitespace runs between them: `gaps[i]` follows
      `tokens[i]`. */
  function Spaced(tokens: seq<string>, gaps: seq<string>): string
    requires |gaps| == |tokens|
  {
    if tokens == [] then [] else tokens[0] + (gaps[0] + Spaced(tokens[1..], gaps[1..]))
  }

  /** Gaps of whitespace, each one non-empty except after the last token. */
  predicate AreGaps(gaps: seq<string>) {
    && (forall i :: 0 <= i < |gaps| ==> IsBlank(gaps[i]))
    && (forall i :: 0 <= i < |gaps| - 1 ==> gaps[i] != [])
  }

  /** `SkipBlank` stops at the first character that is not whitespace. */
  lemma {:induction false} SkipBlankAt(s: string, i: nat, j: nat)
    requires i <= j <= |s|
    requires forall k :: i <= k < j ==> IsWhitespace(s[k])
    requires j < |s| ==> !IsWhitespace(s[j])
    ensures SkipBlank(s, i) == j
    decreases j - i
  {
    if i < j {
      SkipBlankAt(s, i + 1, j);
    }
  }

  /** `SkipToken` stops at the first whitespace character. */
  lemma {:induction false} SkipTokenAt(s: string, i: nat, j: nat)
    requires i <= j <= |s|
    requires forall k :: i <= k < j ==> !IsWhitespace(s[k])
    requires j < |s| ==> IsWhitespace(s[j])
    ensures SkipToken(s, i) == j
    decreases j - i
  {
    if i < j {
      SkipTokenAt(s, i + 1, j);
    }
  }

  /** A whitespace run, a token, then whitespace or the end: the split yields
      that token first and carries on with what follows it. */
  lemma FirstToken(lead: string, t0: string, rest: string)
    requires IsBlank(lead) && IsToken(t0) && (rest == [] || IsWhitespace(rest[0]))
    ensures SplitWhitespace(lead + (t0 + rest)) == [t0] + SplitWhitespace(rest)
  {
    var s := lead + (t0 + rest);
    var j := |lead|;
    var b := j + |t0|;
    forall k | 0 <= k < j
      ensures IsWhitespace(s[k])
    {
      assert s[k] == lead[k];
    }
    forall k | j <= k < b
      ensures !IsWhitespace(s[k])
    {
      assert s[k] == t0[k - j];
    }
    SkipBlankAt(s, 0, j);
    assert b < |s| ==> s[b] == rest[0];
    SkipTokenAt(s, j, b);
    assert s[j..b] == t0;
    assert s[b..] == rest;
  }

  /** Splitting undoes the layout, however long the whitespace runs around and
      between the tokens: the runs collapse and only the tokens remain, in
      order. */
  lemma {:induction false} SplitSpacedRoundTrip(lead: string, tokens: seq<string>, gaps: seq<string>)
    requires IsBlank(lead) && |gaps| == |tokens| && AreGaps(gaps)
    requires forall t :: 0 <= t < |tokens| ==> IsToken(tokens[t])
    ensures SplitWhitespace(lead + Spaced(tokens, gaps)) == tokens
    decreases |tokens|
  {
    if tokens == [] {
      assert lead + Spaced(tokens, gaps) == lead;
      SplitEmpty(lead);
    } else {
      var rest := gaps[0] + Spaced(tokens[1..], gaps[1..]);
      assert rest == [] || IsWhitespace(rest[0]) by {
        if gaps[0] == [] {
          assert |gaps| == 1 && tokens[1..] == [];
        } else {
          assert rest[0] == gaps[0][0];
        }
      }
      FirstToken(lead, tokens[0], rest);
      assert forall t :: 0 <= t < |gaps[1..]| - 1 ==> gaps[1..][t] == gaps[t + 1];
      SplitSpacedRoundTrip(gaps[0], tokens[1..], gaps[1..]);
      assert [tokens[0]] + tokens[1..] == tokens;
    }
  }

  /** Whitespace runs put together make one. */
  lemma BlankJoin(a: string, b: string)
    requires IsBlank(a) && IsBlank(b)
    ensures IsBlank(a + b)
  {
    forall k | |a| <= k < |a + b|
      ensures IsWhitespace((a + b)[k])
    {
      assert (a + b)[k] == b[k - |a|];
    }
  }

  /** A text that is not all whitespace is a whitespace run, a token, and a
      rest that is empty or starts with whitespace. */
  lemma FirstTokenOf(x: string) returns (lead: string, t0: string, rest: string)
    requires !IsBlank(x)
    ensures x == lead + (t0 + rest)
    ensures IsBlank(lead) && IsToken(t0) && (rest == [] || IsWhitespace(rest[0]))
  {
    var a := SkipBlank(x, 0);
    var b := SkipToken(x, a);
    lead, t0, rest := x[..a], x[a..b], x[b..];
    assert x == lead + (t0 + rest);
  }

  /** Whitespace in front of a text does not change its split. */
  lemma SplitLeadingBlank(w: string, x: string)
    requires IsBlank(w)
    ensures SplitWhitespace(w + x) == SplitWhitespace(x)
  {
    if IsBlank(x) {
      SplitEmpty(x);
      BlankJoin(w, x);
      SplitEmpty(w + x);
    } else {
      var lead, t0, rest := FirstTokenOf(x);
      LeadingBlankBeforeToken(w, lead, t0, rest);
    }
  }

  /** The non-blank case: both splits start with the same token. */
  lemma LeadingBlankBeforeToken(w: string, lead: string, t0: string, rest: string)
    requires IsBlank(w) && IsBlank(lead) && IsToken(t0) && (rest == [] || IsWhitespace(rest[0]))
    ensures SplitWhitespace(w + (lead + (t0 + rest))) == SplitWhitespace(lead + (t0 + rest))
  {
    FirstToken(lead, t0, rest);
    BlankJoin(w, lead);
    ConcatAssoc(w, lead, t0 + rest);
    FirstToken(w + lead, t0, rest);
  }

  /** Whitespace after a text does not change its split. */
  lemma {:induction false} SplitTrailingBlank(x: string, w: string)
    requires IsBlank(w)
    ensures SplitWhitespace(x + w) == SplitWhitespace(x)
    decreases |x|
  {
    var s := x + w;
    var a := SkipBlank(x, 0);
    if a < |x| {
      SkipBlankAt(s, 0, a);
      var b := SkipToken(x, a);
      assert b < |s| ==> IsWhitespace(s[b]) by {
        if b == |x| && b < |s| {
          assert s[b] == w[0];
        }
      }
      SkipTokenAt(s, a, b);
      assert s[a..b] == x[a..b];
      assert s[b..] == x[b..] + w;
      SplitTrailingBlank(x[b..], w);
    } else {
      SplitEmpty(x);
      SplitEmpty(s);
      BlankJoin(x, w);
    }
  }

  /** Trimming never changes the tokens of a line. */
  lemma TrimKeepsTokens(s: string)
    ensures SplitWhitespace(Trim(s)) == SplitWhitespace(s)
  {
    var i := TrimOffset(s);
    var t := Trim(s);
    assert s == s[..i] + (t + s[i + |t|..]);
    SplitLeadingBlank(s[..i], t + s[i + |t|..]);
    SplitTrailingBlank(t, s[i + |t|..]);
  }

  // ---------------------------------------------------------------------
  // GameElementsLoader::new
  // ---------------------------------------------------------------------

  /** A trimmed line the loader reads: not blank and not a `#` comment. */
  predicate IsEntryLine(line: string) {
    line != [] && line[0] != '#'
  }

  /** What one line of the element text declares: an element name and its
      arguments. */
  datatype Entry = Entry(name: string, args: seq<string>)

  /** The entry of one raw line: none for a line that is blank once trimmed
      or starts with `#`; otherwise the first token of the trimmed line names
      the element and the remaining tokens are its arguments. */
  function EntryOf(line: string): (r: Option<Entry>)
    ensures r.None? <==> !IsEntryLine(Trim(line))
    ensures r.Some? ==> SplitWhitespace(Trim(line)) == [r.value.name] + r.value.args
  {
    var t := Trim(line);
    if IsEntryLine(t) then
      assert !IsBlank(t) by {
        assert !IsWhitespace(t[0]);
      }
      var tokens := SplitWhitespace(t);
      SplitEmpty(t);
      assert tokens == [tokens[0]] + tokens[1..];
      Some(Entry(tokens[0], tokens[1..]))
    else None
  }

  /** The `Some` results of `f` over `s`, in order: a `map` followed by a
      filter. */
  function FilterMap<A, B>(f: A -> Option<B>, s: seq<A>): (r: seq<B>)
    ensures |r| <= |s|
  {
    if s == [] then []
    else
      var n := |s| - 1;
      FilterMap(f, s[..n]) + (match f(s[n]) case None => [] case Some(b) => [b])
  }

  /** `FilterMap` works element by element: over two stretches it gives the
      results of the first followed by those of the second. */
  lemma {:induction false} FilterMapAppend<A, B>(f: A -> Option<B>, a: seq<A>, b: seq<A>)
    ensures FilterMap(f, a + b) == FilterMap(f, a) + FilterMap(f, b)
    decreases |b|
  {
    if b == [] {
      assert a + b == a;
    } else {
      var n := |b| - 1;
      assert (a + b)[..|a| + n] == a + b[..n];
      assert (a + b)[|a| + n] == b[n];
      FilterMapAppend(f, a, b[..n]);
    }
  }

  /** One more element adds its result, if any, at the end. */
  lemma FilterMapSnoc<A, B>(f: A -> Option<B>, s: seq<A>, x: A)
    ensures FilterMap(f, s + [x]) ==
      FilterMap(f, s) + (match f(x) case None => [] case Some(b) => [b])
  {
    assert (s + [x])[..|s|] == s;
  }

  /** An element without a result can be dropped from anywhere. */
  lemma FilterMapSkips<A, B>(f: A -> Option<B>, before: seq<A>, x: A, after: seq<A>)
    requires f(x).None?
    ensures FilterMap(f, before + [x] + after) == FilterMap(f, before + after)
  {
    FilterMapSnoc(f, before, x);
    FilterMapAppend(f, before + [x], after);
    FilterMapAppend(f, before, after);
  }

  /** The entries of the raw lines, in order. */
  function Entries(raw: seq<string>): (r: seq<Entry>)
    ensures |r| <= |raw|
  {
    FilterMap(EntryOf, raw)
  }

  /** A blank line or a comment line, wherever it stands, declares nothing. */
  lemma SkippedLineIgnored(before: seq<string>, line: string, after: seq<string>)
    requires !IsEntryLine(Trim(line))
    ensures Entries(before + [line] + after) == Entries(before + after)
  {
    FilterMapSkips(EntryOf, before, line, after);
  }

  /** A line `Name a1 a2 ...`, whatever whitespace surrounds and separates
      its words, declares `Name` with the arguments `a1 a2 ...`, unless the
      name starts with `#`. */
  lemma LineEntry(lead: string, tokens: seq<string>, gaps: seq<string>)
    requires IsBlank(lead) && |gaps| == |tokens| && AreGaps(gaps)
    requires forall t :: 0 <= t < |tokens| ==> IsToken(tokens[t])
    requires tokens != [] && tokens[0] != [] && tokens[0][0] != '#'
    ensures EntryOf(lead + Spaced(tokens, gaps)) == Some(Entry(tokens[0], tokens[1..]))
  {
    var s := lead + Spaced(tokens, gaps);
    SplitSpacedRoundTrip(lead, tokens, gaps);
    TrimKeepsTokens(s);
    assert s[|lead|] == tokens[0][0];
    SkipBlankAt(s, 0, |lead|);
    assert Trim(s)[0] == tokens[0][0];
  }

  /** The argument lists of the entries, grouped under their names in the
      order of the entries (the `entry().or_insert().push()` loop). */
  function Group(entries: seq<Entry>): (g: map<string, seq<seq<string>>>)
    ensures forall name :: name in g ==> g[name] != []
  {
    if entries == [] then map[]
    else
      var n := |entries| - 1;
      var g := Group(entries[..n]);
      var e := entries[n];
      g[e.name := (if e.name in g then g[e.name] else []) + [e.args]]
  }

  /** The argument lists of the entries named `name`, in order: the view of
      one element kind. */
  function ArgsNamed(entries: seq<Entry>, name: string): (r: seq<seq<string>>)
    ensures r != [] <==> exists i :: 0 <= i < |entries| && entries[i].name == name
    ensures |r| <= |entries|
  {
    if entries == [] then []
    else
      var n := |entries| - 1;
      assert forall i :: 0 <= i < n ==> entries[..n][i] == entries[i];
      ArgsNamed(entries[..n], name) + (if entries[n].name == name then [entries[n].args] else [])
  }

  /** Grouping loses and reorders nothing: a name is a key exactly when some
      entry has it, and its lists are those entries' arguments in input
      order. */
  lemma {:induction false} GroupByName(entries: seq<Entry>, name: string)
    ensures name in Group(entries) <==> ArgsNamed(entries, name) != []
    ensures name in Group(entries) ==> Group(entries)[name] == ArgsNamed(entries, name)
  {
    if entries != [] {
      var n := |entries| - 1;
      GroupByName(entries[..n], name);
    }
  }

  /** One more entry pushes its arguments onto its name's lists. */
  lemma GroupSnoc(entries: seq<Entry>, e: Entry)
    ensures var g := Group(entries);
      Group(entries + [e]) == g[e.name := (if e.name in g then g[e.name] else []) + [e.args]]
  {
    assert (entries + [e])[..|entries|] == entries;
  }

  /** The prefix one element longer. */
  lemma TakeOneMore<T>(s: seq<T>, i: nat)
    requires i < |s|
    ensures s[..i + 1] == s[..i] + [s[i]]
  {
  }

  /** A `GameElementsLoader`: for each element name, the argument lists of its
      lines. */
  datatype GameElementsLoader = GameElementsLoader(gameElements: map<string, seq<seq<string>>>)
  {
    /** Every name the loader knows has at least one argument list. */
    predicate Valid() {
      forall name :: name in gameElements ==> gameElements[name] != []
    }
  }

  /** The loader built from an element text. */
  function LoaderOf(input: string): (r: GameElementsLoader)
    ensures r.Valid()
  {
    GameElementsLoader(Group(Entries(Lines(input))))
  }

  /** `GameElementsLoader::new`: read the lines one by one, trim them, skip
      blank and comment lines, and push each line's arguments under its first
      token. */
  method NewLoader(input: string) returns (loader: GameElementsLoader)
    ensures loader == LoaderOf(input)
  {
    var raw := Lines(input);
    var gameElements: map<string, seq<seq<string>>> := map[];
    for i := 0 to |raw|
      invariant gameElements == Group(Entries(raw[..i]))
    {
      TakeOneMore(raw, i);
      FilterMapSnoc(EntryOf, raw[..i], raw[i]);
      ghost var entries := Entries(raw[..i]);
      var line := Trim(raw[i]);
      if IsEntryLine(line) {
        var it := SplitWhitespace(line);
        var name := it[0];
        var arguments := it[1..];
        assert EntryOf(raw[i]) == Some(Entry(name, arguments));
        assert Entries(raw[..i + 1]) == entries + [Entry(name, arguments)];
        GroupSnoc(entries, Entry(name, arguments));
        var list := if name in gameElements then gameElements[name] else [];
        gameElements := gameElements[name := list + [arguments]];
      } else {
        assert EntryOf(raw[i]) == None;
        assert Entries(raw[..i + 1]) == entries;
      }
    }
    assert raw[..|raw|] == raw;
    loader := GameElementsLoader(gameElements);
  }

  // ---------------------------------------------------------------------
  // Integer arguments
  // ---------------------------------------------------------------------

  /** The largest `usize` on a 64-bit target. */
  const USIZE_MAX: nat := 0xFFFF_FFFF_FFFF_FFFF

  predicate IsDigit(c: char) {
    '0' <= c <= '9'
  }

  predicate AllDigits(s: string) {
    forall k :: 0 <= k < |s| ==> IsDigit(s[k])
  }

  /** The value of a string of decimal digits, most significant first. */
  function DigitsValue(d: string): nat
    requires AllDigits(d)
  {
    if d == [] then 0
    else DigitsValue(d[..|d| - 1]) * 10 + (d[|d| - 1] as int - '0' as int)
  }

  /** `str::parse::<usize>`: an optional `+`, then at least one decimal digit
      and nothing else, with a value that fits in a `usize`. A `-` sign, an
      empty string and a lone `+` are rejected. */
  function ParseUsize(s: string): (r: Option<nat>)
    ensures r.Some? ==> r.value <= USIZE_MAX
    ensures r.Some? ==> s != [] && s[0] != '-'
    ensures var digits := if s != [] && s[0] == '+' then s[1..] else s;
      r.Some? <==> digits != [] && AllDigits(digits) && DigitsValue(digits) <= USIZE_MAX
    ensures var digits := if s != [] && s[0] == '+' then s[1..] else s;
      r.Some? ==> r.value == DigitsValue(digits)
  {
    var digits := if s != [] && s[0] == '+' then s[1..] else s;
    if digits == [] || !AllDigits(digits) then None
    else
      var v := DigitsValue(digits);
      if v <= USIZE_MAX then Some(v) else None
  }

  /** The digit character for `d`. */
  function DigitChar(d: nat): (c: char)
    requires d < 10
    ensures IsDigit(c) && c as int - '0' as int == d
  {
    ('0' as int + d) as char
  }

  /** The shortest decimal rendering of `n`. */
  function Decimal(n: nat): (s: string)
    ensures s != [] && AllDigits(s)
  {
    if n < 10 then [DigitChar(n)] else Decimal(n / 10) + [DigitChar(n % 10)]
  }

  /** Reading the digits of `n` back gives `n`. */
  lemma {:induction false} DecimalValue(n: nat)
    ensures DigitsValue(Decimal(n)) == n
  {
    if n >= 10 {
      var s := Decimal(n);
      assert s[..|s| - 1] == Decimal(n / 10);
      DecimalValue(n / 10);
    }
  }

  /** Every `usize` parses back from its decimal rendering, with or without a
      `+` sign, and the first value past the range is rejected. */
  lemma ParseDecimal(n: nat)
    ensures n <= USIZE_MAX ==> ParseUsize(Decimal(n)) == Some(n)
    ensures n <= USIZE_MAX ==> ParseUsize("+" + Decimal(n)) == Some(n)
    ensures n > USIZE_MAX ==> ParseUsize(Decimal(n)) == None
  {
    DecimalValue(n);
    assert ("+" + Decimal(n))[1..] == Decimal(n);
  }

  /** Any character other than a digit, except one leading `+`, makes the
      parse fail: "1a", " 7", "1.0" and "++1" are all rejected. */
  lemma ParseRejectsNonDigit(s: string, k: nat)
    requires k < |s| && !IsDigit(s[k]) && !(k == 0 && s[0] == '+')
    ensures ParseUsize(s) == None
  {
    if s[0] == '+' {
      assert s[1..][k - 1] == s[k];
    }
  }

  /** Leading zeros do not change the value: "007" parses as 7. */
  lemma {:induction false} LeadingZerosIgnored(zeros: string, d: string)
    requires forall k :: 0 <= k < |zeros| ==> zeros[k] == '0'
    requires AllDigits(d)
    ensures AllDigits(zeros + d) && DigitsValue(zeros + d) == DigitsValue(d)
    decreases |d|
  {
    if d == [] {
      assert zeros + d == zeros;
      ZerosValue(zeros);
    } else {
      var n := |d| - 1;
      assert (zeros + d)[..|zeros| + n] == zeros + d[..n];
      LeadingZerosIgnored(zeros, d[..n]);
    }
  }

  /** A run of zeros is worth nothing. */
  lemma {:induction false} ZerosValue(zeros: string)
    requires forall k :: 0 <= k < |zeros| ==> zeros[k] == '0'
    ensures AllDigits(zeros) && DigitsValue(zeros) == 0
    decreases |zeros|
  {
    if zeros != [] {
      ZerosValue(zeros[..|zeros| - 1]);
    }
  }

  /** What goes wrong while generating elements (each a panic in the
      source). */
  datatype LoadError =
    | MissingElement(element: string)
    | MissingArgument(element: string, argument: string)
    | NotAnInteger(element: string, argument: string)

  /** `extract_arg`: the unsigned integer at `index` of an argument list. It
      fails when the list is too short, and when the argument there does not
      parse. */
  function ExtractArg(args: seq<string>, index: nat, element: string, argument: string): (r: Result<nat, LoadError>)
    ensures r.Success? <==> index < |args| && ParseUsize(args[index]).Some?
    ensures r.Success? ==> r.value == ParseUsize(args[index]).value
    ensures r == Failure(MissingArgument(element, argument)) <==> index >= |args|
    ensures r.Failure? && index < |args| ==> r == Failure(NotAnInteger(element, argument))
  {
    if index >= |args| then Failure(MissingArgument(element, argument))
    else
      match ParseUsize(args[index])
      case None => Failure(NotAnInteger(element, argument))
      case Some(v) => Success(v)
  }

  /** `extract_x_arg`: the first argument. */
  function ExtractX(args: seq<string>, element: string): (r: Result<nat, LoadError>)
    ensures r.Success? <==> |args| > 0 && ParseUsize(args[0]).Some?
    ensures r.Success? ==> r.value == ParseUsize(args[0]).value
    ensures r == Failure(MissingArgument(element, "X Coordinate")) <==> |args| <= 0
    ensures r.Failure? && |args| > 0 ==> r == Failure(NotAnInteger(element, "X Coordinate"))
  {
    ExtractArg(args, 0, element, "X Coordinate")
  }

  /** `extract_y_arg`: the second argument. */
  function ExtractY(args: seq<string>, element: string): (r: Result<nat, LoadError>)
    ensures r.Success? <==> |args| > 1 && ParseUsize(args[1]).Some?
    ensures r.Success? ==> r.value == ParseUsize(args[1]).value
    ensures r == Failure(MissingArgument(element, "Y Coordinate")) <==> |args| <= 1
    ensures r.Failure? && |args| > 1 ==> r == Failure(NotAnInteger(element, "Y Coordinate"))
  {
    ExtractArg(args, 1, element, "Y Coordinate")
  }

  /** `extract_duration_arg`: the third argument. */
  function ExtractDuration(args: seq<string>, element: string): (r: Result<nat, LoadError>)
    ensures r.Success? <==> |args| > 2 && ParseUsize(args[2]).Some?
    ensures r.Success? ==> r.value == ParseUsize(args[2]).value
    ensures r == Failure(MissingArgument(element, "Duration")) <==> |args| <= 2
    ensures r.Failure? && |args| > 2 ==> r == Failure(NotAnInteger(element, "Duration"))
  {
    ExtractArg(args, 2, element, "Duration")
  }

  // ---------------------------------------------------------------------
  // The generators
  // ---------------------------------------------------------------------

  /** The `NAME` of each element kind. */
  const PLAYER_NAME: string := "Player"
  const ENEMY_NAME: string := "Enemy"
  const BOMB_NAME: string := "Bomb"
  const FIRE_NAME: string := "Fire"
  const STAIRS_NAME: string := "Stairs"

  /** The position an argument list gives: `x` from the first argument, then
      `y` from the second; the first one that fails is reported. */
  function PositionOf(args: seq<string>, element: string): (r: Result<Coordinates, LoadError>)
    ensures r.Success? <==> ExtractX(args, element).Success? && ExtractY(args, element).Success?
    ensures r.Success? ==>
      r.value == Coordinates(ParseUsize(args[0]).value, ParseUsize(args[1]).value)
    ensures ExtractX(args, element).Failure? ==> r == Failure(ExtractX(args, element).error)
    ensures ExtractX(args, element).Success? && ExtractY(args, element).Failure? ==>
      r == Failure(ExtractY(args, element).error)
  {
    var x :- ExtractX(args, element);
    var y :- ExtractY(args, element);
    Success(Coordinates(x, y))
  }

  /** Only the first two arguments decide a position: extra arguments are
      ignored. */
  lemma PositionIgnoresExtraArgs(args: seq<string>, extra: seq<string>, element: string)
    requires |args| >= 2
    ensures PositionOf(args + extra, element) == PositionOf(args, element)
  {
    assert (args + extra)[0] == args[0] && (args + extra)[1] == args[1];
  }

  /** `generate_game_element`: the position of the first line of the element's
      kind; it fails when the kind has no line. */
  function GenerateGameElement(loader: GameElementsLoader, element: string): (r: Result<Coordinates, LoadError>)
    requires loader.Valid()
    ensures element !in loader.gameElements <==> r == Failure(MissingElement(element))
    ensures element in loader.gameElements ==>
      r == PositionOf(loader.gameElements[element][0], element)
  {
    if element !in loader.gameElements then Failure(MissingElement(element))
    else PositionOf(loader.gameElements[element][0], element)
  }

  /** One element from one argument list: the position, then whatever else
      `init` makes of the arguments. */
  function GenerateEntry<T>(args: seq<string>, element: string,
                            init: (seq<string>, Coordinates) -> Result<T, LoadError>): Result<T, LoadError>
  {
    var c :- PositionOf(args, element);
    init(args, c)
  }

  /** The `map`/`collect` of `generate_game_elements` over the argument lists:
      one element per list, in order, or the failure of the first list that
      fails. */
  function GenerateEach<T>(entries: seq<seq<string>>, element: string,
                           init: (seq<string>, Coordinates) -> Result<T, LoadError>): (r: Result<seq<T>, LoadError>)
    ensures r.Success? <==> forall i :: 0 <= i < |entries| ==> GenerateEntry(entries[i], element, init).Success?
    ensures r.Success? ==>
      && |r.value| == |entries|
      && (forall i :: 0 <= i < |entries| ==> GenerateEntry(entries[i], element, init) == Success(r.value[i]))
    ensures r.Failure? ==>
      exists i :: (
        && 0 <= i < |entries|
        && GenerateEntry(entries[i], element, init) == Failure(r.error)
        && (forall j :: 0 <= j < i ==> GenerateEntry(entries[j], element, init).Success?))
  {
    if entries == [] then Success([])
    else
      var first :- GenerateEntry(entries[0], element, init);
      var rest :- GenerateEach(entries[1..], element, init);
      assert forall i :: 1 <= i < |entries| ==> entries[i] == entries[1..][i - 1];
      Success([first] + rest)
  }

  /** `generate_game_elements`: no element when the kind has no line, and one
      per line otherwise. */
  function GenerateGameElements<T>(loader: GameElementsLoader, element: string,
                                   init: (seq<string>, Coordinates) -> Result<T, LoadError>): (r: Result<seq<T>, LoadError>)
    ensures element !in loader.gameElements ==> r == Success([])
    ensures element in loader.gameElements ==> r == GenerateEach(loader.gameElements[element], element, init)
  {
    if element !in loader.gameElements then Success([])
    else GenerateEach(loader.gameElements[element], element, init)
  }

  /** The initialiser of the one-argument-list-per-position forms (`Enemy`,
      `Bomb`): the position alone. */
  function AtPosition(args: seq<string>, c: Coordinates): Result<Coordinates, LoadError> {
    Success(c)
  }

  function NewBomb(args: seq<string>, c: Coordinates): Result<Bomb, LoadError> {
    Success(Bomb(c))
  }

  /** The fire initialiser: the duration is the third argument. */
  function NewFire(args: seq<string>, c: Coordinates): Result<Fire, LoadError> {
    var duration :- ExtractDuration(args, FIRE_NAME);
    Success(Fire(c, duration))
  }

  /** `generate_enemies`, as the enemies' positions. */
  function EnemyPositions(loader: GameElementsLoader): Result<seq<Coordinates>, LoadError> {
    GenerateGameElements(loader, ENEMY_NAME, AtPosition)
  }

  /** `generate_bombs`. */
  function GenerateBombs(loader: GameElementsLoader): (r: Result<seq<Bomb>, LoadError>)
    ensures BOMB_NAME !in loader.gameElements ==> r == Success([])
    ensures BOMB_NAME in loader.gameElements && r.Success? ==>
      |r.value| == |loader.gameElements[BOMB_NAME]|
  {
    GenerateGameElements(loader, BOMB_NAME, NewBomb)
  }

  /** `generate_fires`. */
  function GenerateFires(loader: GameElementsLoader): (r: Result<seq<Fire>, LoadError>)
    ensures FIRE_NAME !in loader.gameElements ==> r == Success([])
    ensures FIRE_NAME in loader.gameElements && r.Success? ==>
      |r.value| == |loader.gameElements[FIRE_NAME]|
  {
    GenerateGameElements(loader, FIRE_NAME, NewFire)
  }

  /** `generate_stairs`. */
  function GenerateStairs(loader: GameElementsLoader): (r: Result<Coordinates, LoadError>)
    requires loader.Valid()
    ensures STAIRS_NAME !in loader.gameElements <==> r == Failure(MissingElement(STAIRS_NAME))
    ensures STAIRS_NAME in loader.gameElements ==>
      r == PositionOf(loader.gameElements[STAIRS_NAME][0], STAIRS_NAME)
  {
    GenerateGameElement(loader, STAIRS_NAME)
  }

  /** `generate_player`, as the player's position. */
  function PlayerPosition(loader: GameElementsLoader): Result<Coordinates, LoadError>
    requires loader.Valid()
  {
    GenerateGameElement(loader, PLAYER_NAME)
  }

  /** `generate_player`: a new player, with a full bomb stock, at the
      position of the first `Player` line. */
  method GeneratePlayer(loader: GameElementsLoader) returns (r: Result<Player, LoadError>)
    requires loader.Valid()
    ensures r.Success? <==> PlayerPosition(loader).Success?
    ensures r.Failure? ==> r.error == PlayerPosition(loader).error
    ensures r.Success? ==>
      && fresh(r.value) && r.value.Valid()
      && r.value.position == PlayerPosition(loader).value
      && r.value.bombs == r.value.maxBombs == INITIAL_MAX_BOMBS
      && r.value.bombRecoveryMillis == INITIAL_BOMB_RECOVERY_MILLIS
  {
    var position :- PlayerPosition(loader);
    var player := new Player(position.x, position.y);
    r := Success(player);
  }

  /** `generate_enemies`: a new enemy at each position the `Enemy` lines
      give, in order. */
  method GenerateEnemies(loader: GameElementsLoader) returns (r: Result<seq<Enemy>, LoadError>)
    ensures r.Success? <==> EnemyPositions(loader).Success?
    ensures r.Failure? ==> r.error == EnemyPositions(loader).error
    ensures r.Success? ==>
      && |r.value| == |EnemyPositions(loader).value|
      && (forall i :: 0 <= i < |r.value| ==>
            fresh(r.value[i]) && r.value[i].position == EnemyPositions(loader).value[i])
      && (forall i, j :: 0 <= i < j < |r.value| ==> r.value[i] != r.value[j])
  {
    var positions :- EnemyPositions(loader);
    var enemies := NewEnemies(positions);
    r := Success(enemies);
  }

  /** A new enemy at each of the positions, in order (`Enemy::new` mapped over
      the argument lists). */
  method NewEnemies(positions: seq<Coordinates>) returns (enemies: seq<Enemy>)
    ensures |enemies| == |positions|
    ensures forall i :: 0 <= i < |enemies| ==> fresh(enemies[i]) && enemies[i].position == positions[i]
    ensures forall i, j :: 0 <= i < j < |enemies| ==> enemies[i] != enemies[j]
  {
    enemies := [];
    for k := 0 to |positions|
      invariant |enemies| == k
      invariant forall i :: 0 <= i < k ==> fresh(enemies[i]) && enemies[i].position == positions[i]
      invariant forall i, j :: 0 <= i < j < k ==> enemies[i] != enemies[j]
    {
      var enemy := new Enemy(positions[k].x, positions[k].y);
      enemies := enemies + [enemy];
    }
  }

  /** A loaded bomb list has one bomb per `Bomb` line, in order, at the
      position the line's first two arguments give. */
  lemma BombsFollowLines(loader: GameElementsLoader, i: nat)
    requires GenerateBombs(loader).Success? && BOMB_NAME in loader.gameElements
    requires i < |loader.gameElements[BOMB_NAME]|
    ensures |GenerateBombs(loader).value| == |loader.gameElements[BOMB_NAME]|
    ensures var args := loader.gameElements[BOMB_NAME][i];
      |args| >= 2 && GenerateBombs(loader).value[i] ==
        Bomb(Coordinates(ParseUsize(args[0]).value, ParseUsize(args[1]).value))
  {
    var args := loader.gameElements[BOMB_NAME][i];
    assert GenerateEntry(args, BOMB_NAME, NewBomb).Success?;
  }

  /** A loaded fire takes its position from the first two arguments of its
      line and its duration from the third. */
  lemma FiresFollowLines(loader: GameElementsLoader, i: nat)
    requires GenerateFires(loader).Success? && FIRE_NAME in loader.gameElements
    requires i < |loader.gameElements[FIRE_NAME]|
    ensures var args := loader.gameElements[FIRE_NAME][i];
      |args| >= 3 && GenerateFires(loader).value[i] ==
        Fire(Coordinates(ParseUsize(args[0]).value, ParseUsize(args[1]).value),
             ParseUsize(args[2]).value)
  {
    var args := loader.gameElements[FIRE_NAME][i];
    assert GenerateEntry(args, FIRE_NAME, NewFire).Success?;
  }

}
