/** The value loop of the SQL dump parser in backend/scripts/classify_connectors.py, and what it reads back. */
module SqlValues {
  import opened Text
  import opened PyText

  datatype Value = Null | Whole(n: nat) | Decimal(digits: string) | Quoted(text: string)

  // ----- the value pattern -----

  /** What the pattern allows between quotes: plain characters and backslash pairs; a pair cannot hold a line feed. */
  predicate IsBody(b: string) {
    b == "" ||
    if b[0] == '\\' then |b| > 1 && b[1] != '\n' && IsBody(b[2..])
    else b[0] != '\'' && IsBody(b[1..])
  }

  /** Where the greedy repetition stops. */
  function BodyEnd(s: string): (n: nat)
    ensures n <= |s|
  {
    if s == "" || s[0] == '\'' then 0
    else if s[0] != '\\' then 1 + BodyEnd(s[1..])
    else if |s| > 1 && s[1] != '\n' then 2 + BodyEnd(s[2..])
    else 0
  }

  /** Backtracking finds nothing else: a body that a quote follows is the greedy one. */
  lemma {:induction false} BodyIsGreedy(b: string, t: string)
    requires IsBody(b) && t != "" && t[0] == '\''
    ensures BodyEnd(b + t) == |b|
  {
    if b == "" {
      assert b + t == t;
    } else if b[0] == '\\' {
      BodyIsGreedy(b[2..], t);
      assert (b + t)[2..] == b[2..] + t;
    } else {
      BodyIsGreedy(b[1..], t);
      assert (b + t)[1..] == b[1..] + t;
    }
  }

  lemma {:induction false} GreedyIsBody(s: string)
    ensures IsBody(s[..BodyEnd(s)])
  {
    if s != "" && s[0] != '\'' {
      if s[0] != '\\' {
        GreedyIsBody(s[1..]);
        assert s[..BodyEnd(s)][1..] == s[1..][..BodyEnd(s[1..])];
      } else if |s| > 1 && s[1] != '\n' {
        GreedyIsBody(s[2..]);
        assert s[..BodyEnd(s)][2..] == s[2..][..BodyEnd(s[2..])];
      }
    }
  }

  /** `s.replace(pair, one)` for a pair of characters: left to right, without overlap. */
  function ReplacePair(s: string, first: char, second: char, one: char): string {
    if s == "" then ""
    else if |s| > 1 && s[0] == first && s[1] == second then [one] + ReplacePair(s[2..], first, second, one)
    else [s[0]] + ReplacePair(s[1..], first, second, one)
  }

  /** The two replacements, one after the other. */
  function Unescape(b: string): string {
    ReplacePair(ReplacePair(b, '\\', '\'', '\''), '\\', '\\', '\\')
  }

  function DigitsEnd(s: string): (n: nat)
    ensures n <= |s|
  {
    if s != "" && IsDigit(s[0]) then 1 + DigitsEnd(s[1..]) else 0
  }

  lemma {:induction false} DigitsEndFacts(s: string)
    ensures AllDigits(s[..DigitsEnd(s)])
  {
    if s != "" && IsDigit(s[0]) {
      DigitsEndFacts(s[1..]);
      assert s[..DigitsEnd(s)] == [s[0]] + s[1..][..DigitsEnd(s[1..])];
    }
  }

  function FractionEnd(s: string): (n: nat)
    ensures n <= |s|
  {
    if s != "" && s[0] == '.' && DigitsEnd(s[1..]) > 0 then 1 + DigitsEnd(s[1..]) else 0
  }

  predicate IsNull(s: string) {
    |s| >= 4 && s[0] in "Nn" && s[1] in "Uu" && s[2] in "Ll" && s[3] in "Ll"
  }

  datatype Match = NoMatch | Match(value: Value, end: nat)

  /** A number of `d` digits and a fraction of `f` characters. */
  function NumberMatch(s: string, d: nat, f: nat): (m: Match)
    requires 0 < d && d + f <= |s| && AllDigits(s[..d])
    ensures m.Match? && m.end == d + f
  {
    Match(if f > 0 then Decimal(s[..d + f]) else Whole(ToNat(s[..d])), d + f)
  }

  /** The value pattern at the start of `s`. */
  function MatchValue(s: string): (m: Match)
    ensures m.Match? ==> 0 < m.end <= |s|
  {
    if s == "" then NoMatch
    else if s[0] == '\'' then
      var e := BodyEnd(s[1..]);
      if e + 1 < |s| && s[e + 1] == '\'' then Match(Quoted(Unescape(s[1..e + 1])), e + 2) else NoMatch
    else if IsDigit(s[0]) then
      DigitsEndFacts(s);
      NumberMatch(s, DigitsEnd(s), FractionEnd(s[DigitsEnd(s)..]))
    else if IsNull(s) then Match(Null, 4)
    else NoMatch
  }

  // ----- the loop -----

  /** `s.lstrip(",")` */
  function DropCommas(s: string): (r: string)
    ensures |r| <= |s|
  {
    if s != "" && s[0] == ',' then DropCommas(s[1..]) else s
  }

  lemma {:induction false} StripStartShrinks(s: string)
    ensures |StripStart(s)| <= |s|
  {
    if s != "" && IsSpace(s[0]) {
      StripStartShrinks(s[1..]);
    }
  }

  /** What the loop leaves after a value that ends at `end`. */
  function AfterValue(s: string, end: nat): (r: string)
    requires end <= |s|
    ensures |r| <= |s| - end
  {
    StripStartShrinks(DropCommas(s[end..]));
    StripStart(DropCommas(s[end..]))
  }

  /** What the loop leaves after skipping to the comma at `comma`. */
  function AfterComma(s: string, comma: nat): (r: string)
    requires comma < |s|
    ensures |r| < |s|
  {
    StripStartShrinks(s[comma + 1..]);
    StripStart(s[comma + 1..])
  }

  function ValuesOf(s: string): seq<Value>
    decreases |s|
  {
    if s == "" then []
    else
      var m := MatchValue(s);
      if m.Match? then [m.value] + ValuesOf(AfterValue(s, m.end))
      else
        var comma := FirstIndex(s, ',');
        if comma == |s| then [Null] else [Null] + ValuesOf(AfterComma(s, comma))
  }

  lemma OneMore(values: seq<Value>, v: Value, rest: seq<Value>)
    ensures values + ([v] + rest) == values + [v] + rest
  {
  }

  /** The loop of `_parse_sql_dump`: it ends on every input, since the remaining text shrinks. */
  method ParseValues(valStr: string) returns (values: seq<Value>)
    ensures values == ValuesOf(Strip(valStr))
  {
    values := [];
    var remaining := Strip(valStr);
    ghost var all := ValuesOf(remaining);
    while remaining != ""
      invariant values + ValuesOf(remaining) == all
      decreases |remaining|
    {
      ghost var left := ValuesOf(remaining);
      var m := MatchValue(remaining);
      if m.Match? {
        OneMore(values, m.value, left[1..]);
        values := values + [m.value];
        remaining := AfterValue(remaining, m.end);
      } else {
        OneMore(values, Null, left[1..]);
        var comma := FirstIndex(remaining, ',');
        values := values + [Null];
        if comma == |remaining| {
          break;
        }
        remaining := AfterComma(remaining, comma);
      }
      assert ValuesOf(remaining) == left[1..];
    }
  }

  // ----- escaping -----

  /** The textbook decoding: one pass, a backslash before a quote or a backslash is dropped. */
  function OnePass(b: string): string {
    if b == "" then ""
    else if b[0] == '\\' && |b| > 1 then
      (if b[1] == '\'' || b[1] == '\\' then [b[1]] else b[..2]) + OnePass(b[2..])
    else [b[0]] + OnePass(b[1..])
  }

  lemma ReplaceCons(c: char, s: string, first: char, second: char, one: char)
    requires c != first || (s != "" ==> s[0] != second)
    ensures ReplacePair([c] + s, first, second, one) == [c] + ReplacePair(s, first, second, one)
  {
    assert ([c] + s)[1..] == s;
  }

  lemma ReplaceFound(s: string, first: char, second: char, one: char)
    ensures ReplacePair([first, second] + s, first, second, one) == [one] + ReplacePair(s, first, second, one)
  {
    assert ([first, second] + s)[2..] == s;
  }

  lemma PairStep(x: char, r: string, one: string)
    requires x != '\n' && IsBody(r) && Unescape(r) == one
    ensures Unescape(['\\', x] + r) == (if x == '\'' || x == '\\' then [x] else ['\\', x]) + one
  {
    var mid := ReplacePair(r, '\\', '\'', '\'');
    var b := ['\\', x] + r;
    if x == '\'' {
      ReplaceFound(r, '\\', '\'', '\'');
      ReplaceCons('\'', mid, '\\', '\\', '\\');
    } else {
      ReplaceCons(x, r, '\\', '\'', '\'');
      ReplaceCons('\\', [x] + r, '\\', '\'', '\'');
      assert b == ['\\'] + ([x] + r);
      assert ['\\'] + ([x] + mid) == ['\\', x] + mid;
      if x == '\\' {
        ReplaceFound(mid, '\\', '\\', '\\');
      } else {
        ReplaceCons(x, mid, '\\', '\\', '\\');
        ReplaceCons('\\', [x] + mid, '\\', '\\', '\\');
      }
    }
  }

  /** On every text the pattern accepts, the two replacements do what a single pass does. */
  lemma {:induction false} TwoReplacesAreOnePass(b: string)
    requires IsBody(b)
    ensures Unescape(b) == OnePass(b)
  {
    if b == "" {
    } else if b[0] == '\\' {
      TwoReplacesAreOnePass(b[2..]);
      PairStep(b[1], b[2..], OnePass(b[2..]));
      assert b == ['\\', b[1]] + b[2..];
      assert b[..2] == ['\\', b[1]];
    } else {
      TwoReplacesAreOnePass(b[1..]);
      assert b == [b[0]] + b[1..];
      ReplaceCons(b[0], b[1..], '\\', '\'', '\'');
      ReplaceCons(b[0], ReplacePair(b[1..], '\\', '\'', '\''), '\\', '\\', '\\');
    }
  }

  /** The escaping the parser is made for: a backslash before every quote and every backslash. */
  function Escape(s: string): string {
    if s == "" then "" else (if s[0] == '\'' || s[0] == '\\' then ['\\', s[0]] else [s[0]]) + Escape(s[1..])
  }

  lemma {:induction false} EscapeIsUndone(s: string)
    ensures IsBody(Escape(s)) && Unescape(Escape(s)) == s
  {
    if s != "" {
      EscapeIsUndone(s[1..]);
      var r := Escape(s[1..]);
      assert s == [s[0]] + s[1..];
      if s[0] == '\'' || s[0] == '\\' {
        assert (['\\', s[0]] + r)[2..] == r;
        PairStep(s[0], r, s[1..]);
      } else {
        assert ([s[0]] + r)[1..] == r;
        ReplaceCons(s[0], r, '\\', '\'', '\'');
        ReplaceCons(s[0], ReplacePair(r, '\\', '\'', '\''), '\\', '\\', '\\');
      }
    }
  }

  // ----- what a printed list reads back as -----

  /** An element of a printed VALUES list: a literal, or an expression the parser does not know. */
  datatype Item = Literal(value: Value) | Expression(text: string)

  predicate IsDecimal(t: string) {
    exists i :: 0 < i < |t| - 1 && AllDigits(t[..i]) && t[i] == '.' && AllDigits(t[i + 1..])
  }

  predicate StartsLiteral(t: string) {
    t != "" && (t[0] == '\'' || IsDigit(t[0]) || IsNull(t))
  }

  predicate IsItem(x: Item) {
    match x
    case Literal(Decimal(t)) => IsDecimal(t)
    case Literal(_) => true
    case Expression(t) => t != "" && !IsSpace(t[0]) && !IsSpace(t[|t| - 1]) && !StartsLiteral(t) && ',' !in t
  }

  function ItemText(x: Item): string {
    match x
    case Literal(Null) => "NULL"
    case Literal(Whole(n)) => OfNat(n)
    case Literal(Decimal(t)) => t
    case Literal(Quoted(s)) => "'" + Escape(s) + "'"
    case Expression(t) => t
  }

  function ItemValue(x: Item): Value {
    match x
    case Literal(v) => v
    case Expression(_) => Null
  }

  function ItemTexts(xs: seq<Item>): (r: seq<string>)
    ensures |r| == |xs|
  {
    seq(|xs|, i requires 0 <= i < |xs| => ItemText(xs[i]))
  }

  function ItemValues(xs: seq<Item>): (r: seq<Value>)
    ensures |r| == |xs|
  {
    seq(|xs|, i requires 0 <= i < |xs| => ItemValue(xs[i]))
  }

  /** What may follow an element: nothing or a comma. */
  predicate IsTail(t: string) {
    t == "" || t[0] == ','
  }

  lemma QuotedAt(s: string, n: nat)
    requires n + 1 < |s| && s[0] == '\'' && BodyEnd(s[1..]) == n && s[n + 1] == '\''
    ensures MatchValue(s) == Match(Quoted(Unescape(s[1..n + 1])), n + 2)
  {
  }

  lemma QuotedSlices(b: string, t: string)
    ensures var s := "'" + b + "'" + t;
            && |s| == |b| + |t| + 2 && s[0] == '\'' && s[1..] == b + ("'" + t) && s[|b| + 1] == '\''
            && s[1..|b| + 1] == b && s[|b| + 2..] == t
  {
  }

  lemma QuotedMatches(b: string, t: string)
    requires IsBody(b)
    ensures var s := "'" + b + "'" + t; MatchValue(s) == Match(Quoted(Unescape(b)), |b| + 2) && s[|b| + 2..] == t
  {
    QuotedSlices(b, t);
    BodyIsGreedy(b, "'" + t);
    QuotedAt("'" + b + "'" + t, |b|);
  }

  lemma {:induction false} DigitsEndOf(d: string, t: string)
    requires AllDigits(d) && (t != "" ==> !IsDigit(t[0]))
    ensures DigitsEnd(d + t) == |d|
  {
    if d == "" {
      assert d + t == t;
    } else {
      DigitsEndOf(d[1..], t);
      assert (d + t)[1..] == d[1..] + t;
    }
  }

  lemma WholeMatches(n: nat, t: string)
    requires IsTail(t)
    ensures var s := OfNat(n) + t; MatchValue(s) == Match(Whole(n), |OfNat(n)|) && s[|OfNat(n)|..] == t
  {
    var d := OfNat(n);
    DigitsEndOf(d, t);
    ToNatOfNat(n);
    assert (d + t)[..|d|] == d && (d + t)[|d|..] == t;
  }

  lemma FractionAt(s: string, i: nat, n: nat)
    requires i < |s| && s[i] == '.' && 0 < n && DigitsEnd(s[i + 1..]) == n
    ensures FractionEnd(s[i..]) == 1 + n
  {
    var t := s[i..];
    assert t[1..] == s[i + 1..];
  }

  lemma NumberAt(s: string, d: nat, f: nat)
    requires s != "" && IsDigit(s[0]) && DigitsEnd(s) == d && FractionEnd(s[d..]) == f && f > 0
    ensures d + f <= |s| && MatchValue(s) == Match(Decimal(s[..d + f]), d + f)
  {
  }

  lemma DecimalMatches(d: string, t: string)
    requires IsDecimal(d) && IsTail(t)
    ensures MatchValue(d + t) == Match(Decimal(d), |d|) && (d + t)[|d|..] == t
  {
    var i :| 0 < i < |d| - 1 && AllDigits(d[..i]) && d[i] == '.' && AllDigits(d[i + 1..]);
    var whole, fraction := d[..i], d[i + 1..];
    assert d == whole + "." + fraction;
    DecimalSplit(d + t, whole, fraction, t);
  }

  lemma DecimalSlices(whole: string, fraction: string, t: string)
    ensures var s := whole + "." + fraction + t; var i := |whole|;
            && s == whole + ("." + fraction + t) && (i > 0 ==> s[0] == whole[0]) && s[i] == '.'
            && s[i + 1..] == fraction + t
            && s[..i + 1 + |fraction|] == whole + "." + fraction && s[i + 1 + |fraction|..] == t
  {
    var s := whole + "." + fraction + t;
    assert s == whole + ("." + fraction + t);
  }

  lemma DecimalSplit(s: string, whole: string, fraction: string, t: string)
    requires s == whole + "." + fraction + t && IsTail(t)
    requires whole != "" && fraction != "" && AllDigits(whole) && AllDigits(fraction)
    ensures MatchValue(s) == Match(Decimal(whole + "." + fraction), |whole| + 1 + |fraction|)
    ensures s[|whole| + 1 + |fraction|..] == t
  {
    DecimalSlices(whole, fraction, t);
    DigitsEndOf(whole, "." + fraction + t);
    DigitsEndOf(fraction, t);
    FractionAt(s, |whole|, |fraction|);
    NumberAt(s, |whole|, 1 + |fraction|);
  }

  lemma LiteralMatches(v: Value, t: string)
    requires IsItem(Literal(v)) && IsTail(t)
    ensures var d := ItemText(Literal(v)); MatchValue(d + t) == Match(v, |d|) && (d + t)[|d|..] == t
  {
    match v
    case Null =>
    case Whole(n) => WholeMatches(n, t);
    case Decimal(d) => DecimalMatches(d, t);
    case Quoted(s) =>
      EscapeIsUndone(s);
      QuotedMatches(Escape(s), t);
  }

  lemma NotNullYet(d: string, t: string)
    requires IsTail(t)
    ensures IsNull(d + t) ==> IsNull(d)
  {
    var s := d + t;
    assert forall k :: 0 <= k < |d| ==> s[k] == d[k];
    if t != "" {
      assert s[|d|] == ',';
    }
  }

  lemma ExpressionDoesNotMatch(d: string, t: string)
    requires IsItem(Expression(d)) && IsTail(t)
    ensures MatchValue(d + t) == NoMatch && FirstIndex(d + t, ',') == |d|
  {
    var s := d + t;
    NotNullYet(d, t);
    if t != "" {
      assert s[|d|] == ',';
      FirstIndexOf(s, d, ',');
    } else {
      assert s == d;
      assert FirstIndex(s, ',') == |s|;
    }
  }

  /** An element at the end of the text. */
  lemma LastStep(x: Item)
    requires IsItem(x)
    ensures ItemText(x) != "" ==> ValuesOf(ItemText(x)) == [ItemValue(x)]
  {
    var d := ItemText(x);
    assert d + "" == d;
    match x
    case Literal(v) =>
      LiteralMatches(v, "");
    case Expression(e) =>
      ExpressionDoesNotMatch(e, "");
  }

  lemma SeparatorIsSkipped(rest: string)
    requires rest != "" && !IsSpace(rest[0])
    ensures StripStart(DropCommas(", " + rest)) == rest && StripStart(" " + rest) == rest
  {
    assert (", " + rest)[1..] == " " + rest;
    assert (" " + rest)[1..] == rest;
  }

  lemma LiteralStep(v: Value, rest: string)
    requires IsItem(Literal(v)) && rest != "" && !IsSpace(rest[0])
    ensures ValuesOf(ItemText(Literal(v)) + (", " + rest)) == [v] + ValuesOf(rest)
  {
    SeparatorIsSkipped(rest);
    LiteralMatches(v, ", " + rest);
  }

  lemma ExpressionStep(d: string, rest: string)
    requires IsItem(Expression(d)) && rest != "" && !IsSpace(rest[0])
    ensures ValuesOf(d + (", " + rest)) == [Null] + ValuesOf(rest)
  {
    var s := d + (", " + rest);
    SeparatorIsSkipped(rest);
    ExpressionDoesNotMatch(d, ", " + rest);
    assert s[|d| + 1..] == " " + rest;
  }

  /** An element before the separator. */
  lemma ItemStep(x: Item, rest: string)
    requires IsItem(x) && rest != "" && !IsSpace(rest[0])
    ensures ValuesOf(ItemText(x) + ", " + rest) == [ItemValue(x)] + ValuesOf(rest)
  {
    assert ItemText(x) + ", " + rest == ItemText(x) + (", " + rest);
    match x
    case Literal(v) => LiteralStep(v, rest);
    case Expression(d) => ExpressionStep(d, rest);
  }

  lemma ItemEdges(x: Item)
    requires IsItem(x)
    ensures var d := ItemText(x); d != "" && !IsSpace(d[0]) && !IsSpace(d[|d| - 1])
  {
    if x.Literal? && x.value.Decimal? {
      var d := x.value.digits;
      var i :| 0 < i < |d| - 1 && AllDigits(d[..i]) && d[i] == '.' && AllDigits(d[i + 1..]);
      assert d[..i][0] == d[0] && d[i + 1..][|d| - i - 2] == d[|d| - 1];
    }
  }

  lemma {:induction false} JoinedEdges(xs: seq<Item>)
    requires xs != [] && forall i :: 0 <= i < |xs| ==> IsItem(xs[i])
    ensures var s := Join(", ", ItemTexts(xs)); s != "" && !IsSpace(s[0]) && !IsSpace(s[|s| - 1])
  {
    ItemEdges(xs[0]);
    if |xs| > 1 {
      JoinedEdges(xs[1..]);
      assert ItemTexts(xs)[1..] == ItemTexts(xs[1..]);
    }
  }

  lemma ConsItems(x: Item, xs: seq<Item>)
    requires xs != []
    ensures Join(", ", ItemTexts([x] + xs)) == ItemText(x) + ", " + Join(", ", ItemTexts(xs))
    ensures ItemValues([x] + xs) == [ItemValue(x)] + ItemValues(xs)
  {
    assert ItemTexts([x] + xs)[1..] == ItemTexts(xs);
  }

  lemma {:induction false} JoinedIsReadBack(xs: seq<Item>)
    requires forall i :: 0 <= i < |xs| ==> IsItem(xs[i])
    ensures ValuesOf(Join(", ", ItemTexts(xs))) == ItemValues(xs)
  {
    if |xs| == 1 {
      ItemEdges(xs[0]);
      LastStep(xs[0]);
    } else if |xs| > 1 {
      var x, rest := xs[0], xs[1..];
      assert xs == [x] + rest;
      JoinedIsReadBack(rest);
      JoinedEdges(rest);
      ConsItems(x, rest);
      ItemStep(x, Join(", ", ItemTexts(rest)));
    }
  }

  /**
   * A VALUES list of naturals, decimals, NULLs and backslash-escaped strings, separated by a comma and a
   * blank, is read back element by element; an unknown expression without a comma is one null.
   */
  lemma ListIsReadBack(xs: seq<Item>)
    requires forall i :: 0 <= i < |xs| ==> IsItem(xs[i])
    ensures ValuesOf(Strip(Join(", ", ItemTexts(xs)))) == ItemValues(xs)
  {
    JoinedIsReadBack(xs);
    if xs != [] {
      JoinedEdges(xs);
    }
    StripIdentity(Join(", ", ItemTexts(xs)));
  }

  // ----- where it stops being exact -----

  lemma {:induction false} StripStartKeepsLast(s: string)
    requires s != "" && !IsSpace(s[|s| - 1])
    ensures StripStart(s) != ""
  {
    if IsSpace(s[0]) {
      StripStartKeepsLast(s[1..]);
    }
  }

  lemma {:induction false} DropCommasKeepsLast(s: string, c: char)
    requires s != "" && s[|s| - 1] == c && c != ','
    ensures DropCommas(s) != "" && DropCommas(s)[|DropCommas(s)| - 1] == c
  {
    if s[0] == ',' {
      DropCommasKeepsLast(s[1..], c);
    }
  }

  /** An unknown expression becomes one null exactly when it holds no comma. */
  lemma ExpressionIsOneNullExactly(t: string)
    requires t != "" && !IsSpace(t[0]) && !IsSpace(t[|t| - 1]) && t[|t| - 1] != ',' && !StartsLiteral(t)
    ensures ValuesOf(Strip(t)) == [Null] <==> ',' !in t
  {
    StripIdentity(t);
    if ',' in t {
      var comma := FirstIndex(t, ',');
      assert t[comma + 1..] != "" && t[comma + 1..][|t| - comma - 2] == t[|t| - 1];
      StripStartKeepsLast(t[comma + 1..]);
      assert |ValuesOf(t)| > 1;
    }
  }

  /** A literal as standard SQL writes it: quotes doubled, backslashes plain. */
  function DoubleQuotes(s: string): string {
    if s == "" then "" else (if s[0] == '\'' then "''" else [s[0]]) + DoubleQuotes(s[1..])
  }

  function StandardLiteral(s: string): string {
    "'" + DoubleQuotes(s) + "'"
  }

  /** No quote, and every backslash before something other than a backslash, a line feed or the end. */
  predicate Unremarkable(s: string) {
    s == "" ||
    if s[0] == '\\' then |s| > 1 && s[1] !in "\\\n'" && Unremarkable(s[1..])
    else s[0] != '\'' && Unremarkable(s[1..])
  }

  lemma {:induction false} UnremarkableIsKept(s: string)
    requires Unremarkable(s)
    ensures DoubleQuotes(s) == s && IsBody(s) && OnePass(s) == s
  {
    if s != "" {
      UnremarkableIsKept(s[1..]);
      assert s == [s[0]] + s[1..];
      if s[0] == '\\' {
        assert s[1..][1..] == s[2..];
        UnremarkableIsKept(s[2..]);
        assert s == s[..2] + s[2..];
      }
    }
  }

  lemma BackslashTail(s: string)
    requires |s| > 1 && s[0] == '\\'
    ensures |DoubleQuotes(s)| > 1 && DoubleQuotes(s)[..2] == ['\\', s[1]]
    ensures DoubleQuotes(s)[2..] == (if s[1] == '\'' then "'" else "") + DoubleQuotes(s[2..])
  {
    assert s[1..][1..] == s[2..];
    assert DoubleQuotes(s) == ['\\'] + DoubleQuotes(s[1..]);
  }

  lemma {:induction false} BodyHasNoDoubledQuote(s: string)
    requires IsBody(DoubleQuotes(s))
    ensures DoubleQuotes(s) == s && IsBody(s)
  {
    if s != "" {
      var d := DoubleQuotes(s);
      assert s == [s[0]] + s[1..];
      assert d[0] == s[0];
      if s[0] == '\\' {
        assert DoubleQuotes(s) == ['\\'] + DoubleQuotes(s[1..]);
        BackslashTail(s);
        assert d[2..] == DoubleQuotes(s[2..]);
        BodyHasNoDoubledQuote(s[2..]);
        assert s == s[..2] + s[2..] && d == d[..2] + d[2..];
        assert s[..2] == ['\\', s[1]];
      } else {
        assert d[1..] == DoubleQuotes(s[1..]);
        BodyHasNoDoubledQuote(s[1..]);
      }
    }
  }

  lemma {:induction false} OnePassShrinks(b: string)
    requires IsBody(b)
    ensures |OnePass(b)| <= |b|
    ensures OnePass(b) == b ==> Unremarkable(b)
  {
    if b != "" {
      if b[0] == '\\' {
        OnePassShrinks(b[2..]);
        assert b == b[..2] + b[2..];
        assert b[1..][1..] == b[2..];
        if OnePass(b) == b {
          assert b[1] !in "\\'";
          assert OnePass(b)[2..] == OnePass(b[2..]);
          assert Unremarkable(b[1..]);
        }
      } else {
        OnePassShrinks(b[1..]);
        if OnePass(b) == b {
          assert OnePass(b)[1..] == OnePass(b[1..]);
        }
      }
    }
  }

  lemma OneValue(s: string, v: string)
    requires ValuesOf(s) == [Quoted(v)]
    ensures var m := MatchValue(s); m.Match? && m.value == Quoted(v) && AfterValue(s, m.end) == ""
  {
    assert ValuesOf(s)[0] == Quoted(v);
    var m := MatchValue(s);
    assert m.Match?;
    var rest := AfterValue(s, m.end);
    assert ValuesOf(s) == [m.value] + ValuesOf(rest);
    assert |ValuesOf(rest)| == 0;
  }

  lemma NothingLeft(s: string, end: nat, c: char)
    requires s != "" && s[|s| - 1] == c && c != ',' && !IsSpace(c) && end <= |s| && AfterValue(s, end) == ""
    ensures end == |s|
  {
    var rest := s[end..];
    if rest != "" {
      DropCommasKeepsLast(rest, c);
      StripStartKeepsLast(DropCommas(rest));
    }
  }

  lemma QuotedWholeText(d: string, v: string)
    requires ValuesOf("'" + d + "'") == [Quoted(v)]
    ensures IsBody(d) && v == Unescape(d)
  {
    var s := "'" + d + "'";
    var inside := s[1..];
    assert inside == d + "'";
    OneValue(s, v);
    NothingLeft(s, MatchValue(s).end, '\'');
    GreedyIsBody(inside);
    assert BodyEnd(inside) == |d|;
    assert s[1..|d| + 1] == d && inside[..|d|] == d;
  }

  /** A literal in standard SQL spelling is read back as its string exactly when nothing in it needs care. */
  lemma StandardLiteralExactly(s: string)
    ensures ValuesOf(StandardLiteral(s)) == [Quoted(s)] <==> Unremarkable(s)
  {
    if Unremarkable(s) {
      UnremarkableIsKept(s);
      TwoReplacesAreOnePass(s);
      QuotedMatches(s, "");
      assert "'" + s + "'" + "" == "'" + s + "'";
    }
    if ValuesOf(StandardLiteral(s)) == [Quoted(s)] {
      QuotedWholeText(DoubleQuotes(s), s);
      BodyHasNoDoubledQuote(s);
      TwoReplacesAreOnePass(s);
      OnePassShrinks(s);
    }
  }
}
