/** What a character class means: the union of its items, with the exceptions that `-` makes. */
module RegexClass {
  import opened Regex

  datatype Item = Single(c: Ch) | Span(lo: Ch, hi: Ch) | Escape(m: Ch)

  predicate OrdinaryEnd(c: Ch) { c != NUL && c != DASH && c != BACKSLASH }

  predicate WellFormed(item: Item) {
    match item
    case Single(c) => OrdinaryEnd(c)
    case Span(lo, hi) => OrdinaryEnd(lo) && OrdinaryEnd(hi) && lo <= hi
    case Escape(m) => m != NUL
  }

  function Text(item: Item): seq<Ch> {
    match item
    case Single(c) => [c]
    case Span(lo, hi) => [lo, DASH, hi]
    case Escape(m) => [BACKSLASH, m]
  }

  function TextAll(items: seq<Item>): seq<Ch> {
    if items == [] then [] else Text(items[0]) + TextAll(items[1..])
  }

  /** The characters an item stands for. */
  predicate Covers(item: Item, c: Ch) {
    match item
    case Single(x) => c == x
    case Span(lo, hi) => lo <= c <= hi
    case Escape(m) => if IsMetaChar(m) then MatchMetaChar(c, m) else c == m
  }

  /** The class text of the items, with a `-` of its own at the end or without. */
  function Body(items: seq<Item>, dash: bool): seq<Ch> { TextAll(items) + if dash then [DASH] else [] }

  predicate AllWellFormed(items: seq<Item>) { forall k | 0 <= k < |items| :: WellFormed(items[k]) }

  /** The character after the first item. */
  function After(items: seq<Item>, dash: bool): Ch
    requires items != []
  {
    At(Body(items[1..], dash), 0)
  }

  /** What the first of the items accepts, other than `-`: what it stands for; but an escaped `-`
      is read as a range from the backslash as well. */
  predicate Accepts(items: seq<Item>, dash: bool, c: Ch)
    requires items != []
  {
    Covers(items[0], c) || (items[0] == Escape(DASH) && BACKSLASH <= c <= After(items, dash))
  }

  lemma ItemAt(s: seq<Ch>, i: nat, items: seq<Item>, dash: bool)
    requires items != [] && i <= |s| && s[i..] == Body(items, dash) && AllWellFormed(items)
    ensures var n := |Text(items[0])|;
            && i + n <= |s| && s[i + n..] == Body(items[1..], dash) && AllWellFormed(items[1..])
            && (At(s, i + n) == DASH ==> At(s, i + n + 1) == NUL) && At(s, i + n) == After(items, dash)
            && (forall k: nat | k < n :: At(s, i + k) == Text(items[0])[k])
  {
    var w, n := Text(items[0]), |Text(items[0])|;
    assert Body(items, dash) == w + Body(items[1..], dash);
    assert s[i..][n..] == Body(items[1..], dash) && s[i..][n..] == s[i + n..];
    forall k: nat | k < n ensures At(s, i + k) == w[k] { assert s[i + k] == s[i..][k]; }
    if i + n < |s| {
      assert s[i + n] == s[i + n..][0];
      if items[1..] != [] { assert s[i + n] == Text(items[1])[0] != DASH; }
    }
  }

  /** One item is tried, and matching goes on after it. */
  lemma ClassStep(c: Ch, s: seq<Ch>, i: nat, items: seq<Item>, dash: bool)
    requires c != NUL && c != DASH && items != [] && i <= |s| && s[i..] == Body(items, dash) && AllWellFormed(items)
    ensures MatchCharClass(c, s, i) <==> Accepts(items, dash, c) || MatchCharClass(c, s, i + |Text(items[0])|)
  {
    ItemAt(s, i, items, dash);
    var w := Text(items[0]);
    assert At(s, i) == w[0];
    match items[0]
    case Single(_) =>
    case Span(_, hi) =>
      assert At(s, i + 1) == w[1] && At(s, i + 2) == w[2];
      assert MatchCharClass(c, s, i + 1) <==> MatchCharClass(c, s, i + 2);
      assert MatchCharClass(c, s, i + 2) <==> c == hi || MatchCharClass(c, s, i + 3);
    case Escape(_) =>
      assert At(s, i + 1) == w[1];
  }

  predicate SomeAccepts(items: seq<Item>, dash: bool, c: Ch) {
    exists k {:trigger items[k..]} :: 0 <= k < |items| && Accepts(items[k..], dash, c)
  }

  lemma UnionStep(items: seq<Item>, dash: bool, c: Ch)
    requires items != []
    ensures SomeAccepts(items, dash, c) <==> Accepts(items, dash, c) || SomeAccepts(items[1..], dash, c)
  {
    assert items[0..] == items;
    if SomeAccepts(items, dash, c) && !Accepts(items, dash, c) {
      var k :| 0 <= k < |items| && Accepts(items[k..], dash, c);
      assert items[1..][k - 1..] == items[k..];
    }
    if SomeAccepts(items[1..], dash, c) {
      var k :| 0 <= k < |items[1..]| && Accepts(items[1..][k..], dash, c);
      assert items[k + 1..] == items[1..][k..];
    }
  }

  /** A class accepts a character other than `-` exactly when one of its items does. */
  lemma {:induction false} ClassIsUnion(c: Ch, s: seq<Ch>, i: nat, items: seq<Item>, dash: bool)
    requires c != NUL && c != DASH && i <= |s| && s[i..] == Body(items, dash) && AllWellFormed(items)
    ensures MatchCharClass(c, s, i) <==> SomeAccepts(items, dash, c)
    decreases |items|
  {
    if items == [] {
      assert |s| - i == |s[i..]| && (dash ==> s[i] == s[i..][0]);
    } else {
      ClassStep(c, s, i, items, dash);
      ItemAt(s, i, items, dash);
      ClassIsUnion(c, s, i + |Text(items[0])|, items[1..], dash);
      UnionStep(items, dash, c);
    }
  }

  /** So the class is the union of its items unless it has an escaped `-`, or the character comes
      before the backslash. */
  lemma PlainUnion(c: Ch, items: seq<Item>, dash: bool)
    requires AllWellFormed(items) && (Escape(DASH) !in items || c < BACKSLASH)
    ensures SomeAccepts(items, dash, c) <==> exists k :: 0 <= k < |items| && Covers(items[k], c)
  {
    forall k | 0 <= k < |items| ensures Accepts(items[k..], dash, c) <==> Covers(items[k], c) {
      assert items[k..][0] == items[k];
    }
    if k :| 0 <= k < |items| && Covers(items[k], c) { assert Accepts(items[k..], dash, c); }
  }

  // ----- The dash -----

  predicate NoSpanBefore(items: seq<Item>, n: nat) { forall k: nat | k < n && k < |items| :: !items[k].Span? }

  /** An escape covers the dash and no range stands before it. */
  predicate DashEscaped(items: seq<Item>) {
    exists k: nat :: k < |items| && items[k].Escape? && Covers(items[k], DASH) && NoSpanBefore(items, k)
  }

  lemma DashStep(items: seq<Item>)
    requires items != []
    ensures DashEscaped(items) <==> (items[0].Escape? && Covers(items[0], DASH)) || (!items[0].Span? && DashEscaped(items[1..]))
    ensures NoSpanBefore(items, |items|) <==> !items[0].Span? && NoSpanBefore(items[1..], |items| - 1)
  {
    var rest := items[1..];
    assert forall k: nat | k < |rest| :: rest[k] == items[k + 1];
    if DashEscaped(items) {
      var k: nat :| k < |items| && items[k].Escape? && Covers(items[k], DASH) && NoSpanBefore(items, k);
      if k > 0 { assert rest[k - 1] == items[k] && NoSpanBefore(rest, k - 1); }
    }
    if !items[0].Span? && DashEscaped(rest) {
      var k: nat :| k < |rest| && rest[k].Escape? && Covers(rest[k], DASH) && NoSpanBefore(rest, k);
      assert forall j: nat | 0 < j <= k :: items[j] == rest[j - 1];
      assert NoSpanBefore(items, k + 1) && items[k + 1] == rest[k];
    }
    if !items[0].Span? && NoSpanBefore(rest, |rest|) {
      assert forall j: nat | 0 < j < |items| :: items[j] == rest[j - 1];
    }
  }

  /** The exception is `-`: a range's own `-` decides against it, so what would cover it counts
      only before the first range.  A class accepts it exactly when an escape before any range
      covers it, or it stands last in a class without ranges. */
  lemma {:induction false} DashExactly(s: seq<Ch>, i: nat, items: seq<Item>, dash: bool)
    requires i <= |s| && s[i..] == Body(items, dash) && AllWellFormed(items)
    ensures MatchCharClass(DASH, s, i) <==> DashEscaped(items) || (dash && NoSpanBefore(items, |items|))
    decreases |items|
  {
    if items == [] {
      assert |s| - i == |s[i..]| && (dash ==> s[i] == s[i..][0]);
    } else {
      ItemAt(s, i, items, dash);
      DashStep(items);
      var w := Text(items[0]);
      assert At(s, i) == w[0];
      match items[0]
      case Single(_) => DashExactly(s, i + 1, items[1..], dash);
      case Span(_, _) =>
        assert At(s, i + 1) == w[1] && At(s, i + 2) == w[2];
        assert !MatchCharClass(DASH, s, i + 1);
      case Escape(_) =>
        assert At(s, i + 1) == w[1];
        DashExactly(s, i + 2, items[1..], dash);
    }
  }

  /** The text of a class, with a `-` of its own in front or without. */
  function ClassOf(lead: bool, items: seq<Item>, dash: bool): seq<Ch> { (if lead then [DASH] else []) + Body(items, dash) }

  /** What a whole class accepts. */
  lemma ClassExactly(c: Ch, lead: bool, items: seq<Item>, dash: bool)
    requires c != NUL && AllWellFormed(items)
    ensures MatchCharClass(c, ClassOf(lead, items, dash), 0) <==>
            if c == DASH then lead || DashEscaped(items) || (dash && NoSpanBefore(items, |items|))
            else SomeAccepts(items, dash, c)
  {
    var s, i := ClassOf(lead, items, dash), if lead then 1 else 0;
    assert s[i..] == Body(items, dash);
    if c == DASH { DashExactly(s, i, items, dash); } else { ClassIsUnion(c, s, i, items, dash); }
    if lead {
      assert s[0] == DASH;
      assert c != DASH ==> (MatchCharClass(c, s, 0) <==> MatchCharClass(c, s, 1));
    }
  }

  /** So `[a-z\D]` refuses a `-` although \D covers it, and `[\Da-z]` accepts it. */
  lemma DashIsRefused()
    ensures var (range, escape) := (Span('a' as int, 'z' as int), Escape('D' as int));
            && Covers(escape, DASH) && !MatchCharClass(DASH, Body([range, escape], false), 0)
            && MatchCharClass(DASH, Body([escape, range], false), 0)
  {
    var range, escape := Span('a' as int, 'z' as int), Escape('D' as int);
    var refused, accepted := [range, escape], [escape, range];
    assert Body(refused, false)[0..] == Body(refused, false) && Body(accepted, false)[0..] == Body(accepted, false);
    DashExactly(Body(refused, false), 0, refused, false);
    DashExactly(Body(accepted, false), 0, accepted, false);
    assert accepted[0].Escape? && NoSpanBefore(accepted, 0);
    forall k: nat | k < 2 && refused[k].Escape? ensures !NoSpanBefore(refused, k) { assert refused[0].Span?; }
  }
}
