/**
 * Adaptive alert batching (`buildAlertDigest` and its helpers, src/alerts/digest.ts). A char
 * of this module stands for one UTF-16 code unit, which is what the source's lengths count.
 */
module Digest {
  import opened Wrappers
  import StableSort

  datatype AlertItem = AlertItem(
    severity: string, title: string, component: Option<string>, ref: Option<string>,
    remediation: Option<string>, url: Option<string>)

  datatype Options = Options(
    prefix: string, threshold: int, maxChars: int, detailsPointer: string,
    order: seq<string>, emojiMap: map<string, string>)

  const BULLET := "\U{2022}"
  const DASH := " \U{2014} "
  const ELLIPSIS := "\U{2026}"

  // ---- Text -----------------------------------------------------------------------------

  function Decimal(n: nat): (s: string)
    ensures |s| >= 1
  {
    var digit := ["0123456789"[n % 10]];
    if n < 10 then digit else Decimal(n / 10) + digit
  }

  predicate IsDigits(s: string) {
    forall i | 0 <= i < |s| :: '0' <= s[i] <= '9'
  }

  /** The number a string of digits denotes. */
  function Denoted(digits: string): nat
    requires IsDigits(digits)
  {
    if digits == "" then 0
    else 10 * Denoted(digits[..|digits| - 1]) + (digits[|digits| - 1] as int - '0' as int)
  }

  /** The digits denote the number, without a leading zero. */
  lemma {:induction false} DecimalDenotes(n: nat)
    ensures IsDigits(Decimal(n)) && Denoted(Decimal(n)) == n
    ensures Decimal(n)[0] == '0' ==> n == 0
  {
    DigitDenotes(n % 10);
    var digit := ["0123456789"[n % 10]];
    assert digit[..0] == "" && Denoted("") == 0;
    if n >= 10 {
      DecimalDenotes(n / 10);
      assert (Decimal(n / 10) + digit)[..|Decimal(n / 10)|] == Decimal(n / 10);
    }
  }

  lemma DigitDenotes(d: nat)
    requires d < 10
    ensures "0123456789"[d] as int == '0' as int + d
  {
  }

  function Power(k: nat): nat {
    if k == 0 then 1 else 10 * Power(k - 1)
  }

  lemma {:induction false} DecimalLength(n: nat, k: nat)
    requires k >= 1
    ensures |Decimal(n)| <= k <==> n < Power(k)
  {
    assert Power(k) == 10 * Power(k - 1);
    if n < 10 {
      assert Power(k - 1) >= 1 by { PowerPositive(k - 1); }
    } else if k == 1 {
      assert |Decimal(n)| == |Decimal(n / 10)| + 1;
    } else {
      DecimalLength(n / 10, k - 1);
    }
  }

  lemma {:induction false} PowerPositive(k: nat)
    ensures Power(k) >= 1
  {
    if k > 0 {
      PowerPositive(k - 1);
    }
  }

  function Join(parts: seq<string>, separator: string): string {
    if parts == [] then ""
    else if |parts| == 1 then parts[0]
    else Join(parts[..|parts| - 1], separator) + separator + parts[|parts| - 1]
  }

  lemma {:induction false} JoinOneMore(parts: seq<string>, last: string, separator: string)
    requires parts != []
    ensures Join(parts + [last], separator) == Join(parts, separator) + separator + last
  {
    assert (parts + [last])[..|parts|] == parts;
  }

  function EmojiFor(severity: string, emojiMap: map<string, string>): string {
    if severity in emojiMap then emojiMap[severity] else BULLET
  }

  function Reference(item: AlertItem): string {
    if item.ref.Some? && item.ref.value != "" then " [" + item.ref.value + "]" else ""
  }

  function Optional(prefix: string, text: Option<string>): seq<string> {
    if text.Some? && text.value != "" then [prefix + text.value] else []
  }

  function RenderIndividual(item: AlertItem, emojiMap: map<string, string>): string {
    Join([EmojiFor(item.severity, emojiMap) + " " + item.title + Reference(item)]
         + Optional("Component: ", item.component)
         + Optional("Remediation: ", item.remediation)
         + Optional("", item.url), "\n")
  }

  function Line(item: AlertItem, emojiMap: map<string, string>): string {
    EmojiFor(item.severity, emojiMap) + " " + item.title + Reference(item) + DASH
    + (if item.component.Some? then item.component.value else "?")
  }

  function Lines(items: seq<AlertItem>, emojiMap: map<string, string>): seq<string>
  {
    seq(|items|, i requires 0 <= i < |items| => Line(items[i], emojiMap))
  }

  // ---- Severity order ----------------------------------------------------------------------

  lemma JoinFour(a: string, b: string, c: string, d: string)
    ensures Join([a] + [b] + [c] + [d], "\n") == a + "\n" + b + "\n" + c + "\n" + d
    ensures Join([a] + [] + [] + [], "\n") == a
  {
    JoinOneMore([a], b, "\n");
    JoinOneMore([a] + [b], c, "\n");
    JoinOneMore([a] + [b] + [c], d, "\n");
    assert [a] + [] + [] + [] == [a];
  }

  /** The text of an item on its own, with all of its details. */
  lemma FullIndividualText(item: AlertItem, component: string, ref: string, remediation: string, url: string,
                           emojiMap: map<string, string>)
    requires item.component == Some(component) && item.ref == Some(ref)
    requires item.remediation == Some(remediation) && item.url == Some(url)
    requires component != "" && ref != "" && remediation != "" && url != ""
    ensures RenderIndividual(item, emojiMap)
      == EmojiFor(item.severity, emojiMap) + " " + item.title + (" [" + ref + "]") + "\n"
         + ("Component: " + component) + "\n" + ("Remediation: " + remediation) + "\n" + url
  {
    assert "" + url == url;
    JoinFour(EmojiFor(item.severity, emojiMap) + " " + item.title + (" [" + ref + "]"),
             "Component: " + component, "Remediation: " + remediation, url);
  }

  /** Without details the text is the emoji and the title. */
  lemma BareIndividualText(item: AlertItem, emojiMap: map<string, string>)
    requires item.component == item.ref == item.remediation == item.url == None
    ensures RenderIndividual(item, emojiMap) == EmojiFor(item.severity, emojiMap) + " " + item.title
  {
    var head := EmojiFor(item.severity, emojiMap) + " " + item.title;
    assert head + "" == head;
    JoinFour(head, "", "", "");
  }

  /** The text of an item in a digest, with reference and component and without. */
  lemma LineText(severity: string, title: string, component: string, ref: string, emojiMap: map<string, string>)
    requires ref != ""
    ensures var emoji := if severity in emojiMap then emojiMap[severity] else "\U{2022}";
      && Line(AlertItem(severity, title, Some(component), Some(ref), None, None), emojiMap)
        == emoji + " " + title + " [" + ref + "]" + " \U{2014} " + component
      && Line(AlertItem(severity, title, None, None, None, None), emojiMap) == emoji + " " + title + " \U{2014} " + "?"
  {
    assert EmojiFor(severity, emojiMap) + " " + title + "" == EmojiFor(severity, emojiMap) + " " + title;
  }

  /** Position in the configured order; one past the end when not listed. */
  function Rank(severity: string, order: seq<string>): (r: nat)
    ensures r <= |order| && (r < |order| ==> order[r] == severity)
    ensures forall i | 0 <= i < r :: order[i] != severity
  {
    if order == [] then 0
    else if order[0] == severity then 0
    else 1 + Rank(severity, order[1..])
  }

  datatype Tagged = Tagged(item: AlertItem, idx: nat)

  function Tag(items: seq<AlertItem>): (t: seq<Tagged>)
    ensures |t| == |items| && forall i | 0 <= i < |items| :: t[i] == Tagged(items[i], i)
  {
    seq(|items|, i requires 0 <= i < |items| => Tagged(items[i], i))
  }

  function Untag(t: seq<Tagged>): (items: seq<AlertItem>)
    ensures |items| == |t| && forall i | 0 <= i < |t| :: items[i] == t[i].item
  {
    seq(|t|, i requires 0 <= i < |t| => t[i].item)
  }

  predicate Before(order: seq<string>, a: Tagged, b: Tagged) {
    var ra, rb := Rank(a.item.severity, order), Rank(b.item.severity, order);
    if ra != rb then ra < rb else a.idx <= b.idx
  }

  function ByRankThenIndex(order: seq<string>): (Tagged, Tagged) -> bool {
    (a, b) => Before(order, a, b)
  }

  function SortItems(items: seq<AlertItem>, order: seq<string>): seq<AlertItem> {
    Untag(StableSort.Sort(ByRankThenIndex(order), Tag(items)))
  }

  /** The items of one rank, in input order. */
  function OfRank(items: seq<AlertItem>, order: seq<string>, r: nat): seq<AlertItem> {
    if items == [] then []
    else
      var rest := OfRank(items[..|items| - 1], order, r);
      if Rank(items[|items| - 1].severity, order) == r then rest + [items[|items| - 1]] else rest
  }

  /** The reference order: rank by rank, each in input order, unlisted severities last. */
  function RankByRank(items: seq<AlertItem>, order: seq<string>, r: nat): seq<AlertItem> {
    if r == 0 then [] else RankByRank(items, order, r - 1) + OfRank(items, order, r - 1)
  }

  function Pick(t: seq<Tagged>, order: seq<string>, r: nat): seq<Tagged> {
    if t == [] then []
    else
      var rest := Pick(t[..|t| - 1], order, r);
      if Rank(t[|t| - 1].item.severity, order) == r then rest + [t[|t| - 1]] else rest
  }

  function Picks(t: seq<Tagged>, order: seq<string>, r: nat): seq<Tagged> {
    if r == 0 then [] else Picks(t, order, r - 1) + Pick(t, order, r - 1)
  }

  lemma {:induction false} PickMembers(t: seq<Tagged>, order: seq<string>, r: nat)
    ensures forall x :: x in Pick(t, order, r) <==> x in t && Rank(x.item.severity, order) == r
  {
    if t != [] {
      PickMembers(t[..|t| - 1], order, r);
      assert t == t[..|t| - 1] + [t[|t| - 1]];
    }
  }

  ghost predicate Increasing(t: seq<Tagged>) {
    forall i, j | 0 <= i < j < |t| :: t[i].idx < t[j].idx
  }

  lemma {:induction false} PickIsSorted(t: seq<Tagged>, order: seq<string>, r: nat)
    requires Increasing(t)
    ensures StableSort.Sorted(ByRankThenIndex(order), Pick(t, order, r))
  {
    if t != [] {
      var m := |t| - 1;
      PickIsSorted(t[..m], order, r);
      PickMembers(t[..m], order, r);
      var p := Pick(t[..m], order, r);
      forall i | 0 <= i < |p| && Rank(t[m].item.severity, order) == r
        ensures Before(order, p[i], t[m])
      {
        assert p[i] in t[..m];
      }
    }
  }

  lemma {:induction false} PickSnoc(t: seq<Tagged>, x: Tagged, order: seq<string>, r: nat)
    ensures Pick(t + [x], order, r)
      == if Rank(x.item.severity, order) == r then Pick(t, order, r) + [x] else Pick(t, order, r)
  {
    assert (t + [x])[..|t|] == t;
  }

  /** One more item turns up once, in the bucket of its rank. */
  lemma {:induction false} PicksSnoc(t: seq<Tagged>, x: Tagged, order: seq<string>, r: nat)
    ensures multiset(Picks(t + [x], order, r))
      == OneMore(multiset(Picks(t, order, r)), x, Rank(x.item.severity, order) < r)
  {
    if r == 0 {
      assert Picks(t + [x], order, r) == [];
    } else {
      var q := r - 1;
      PicksSnoc(t, x, order, q);
      PickSnoc(t, x, order, q);
      assert Picks(t, order, r) == Picks(t, order, q) + Pick(t, order, q);
      assert Picks(t + [x], order, r) == Picks(t + [x], order, q) + Pick(t + [x], order, q);
      var rank := Rank(x.item.severity, order);
      assert multiset(Pick(t + [x], order, q)) == OneMore(multiset(Pick(t, order, q)), x, rank == q);
      AddOneMore(multiset(Picks(t, order, q)), multiset(Pick(t, order, q)), x, rank < q, rank == q);
    }
  }

  function OneMore(m: multiset<Tagged>, x: Tagged, added: bool): multiset<Tagged> {
    if added then m + multiset{x} else m
  }

  lemma AddOneMore(m: multiset<Tagged>, n: multiset<Tagged>, x: Tagged, inM: bool, inN: bool)
    requires !(inM && inN)
    ensures OneMore(m, x, inM) + OneMore(n, x, inN) == OneMore(m + n, x, inM || inN)
  {
  }

  lemma {:induction false} PicksArePermutation(t: seq<Tagged>, order: seq<string>)
    ensures multiset(Picks(t, order, |order| + 1)) == multiset(t)
  {
    if t == [] {
      NothingPicked(order, |order| + 1);
    } else {
      var m := |t| - 1;
      PicksArePermutation(t[..m], order);
      PicksSnoc(t[..m], t[m], order, |order| + 1);
      assert t == t[..m] + [t[m]];
    }
  }

  lemma {:induction false} NothingPicked(order: seq<string>, r: nat)
    ensures Picks([], order, r) == []
  {
    if r > 0 {
      NothingPicked(order, r - 1);
    }
  }

  ghost predicate RanksBelow(t: seq<Tagged>, order: seq<string>, r: nat) {
    forall i | 0 <= i < |t| :: Rank(t[i].item.severity, order) < r
  }

  lemma {:induction false} AppendRank(a: seq<Tagged>, b: seq<Tagged>, order: seq<string>, r: nat)
    requires StableSort.Sorted(ByRankThenIndex(order), a) && RanksBelow(a, order, r)
    requires StableSort.Sorted(ByRankThenIndex(order), b)
    requires forall i | 0 <= i < |b| :: Rank(b[i].item.severity, order) == r
    ensures StableSort.Sorted(ByRankThenIndex(order), a + b) && RanksBelow(a + b, order, r + 1)
  {
  }

  lemma {:induction false} PicksAreSorted(t: seq<Tagged>, order: seq<string>, r: nat)
    requires Increasing(t)
    ensures StableSort.Sorted(ByRankThenIndex(order), Picks(t, order, r))
    ensures RanksBelow(Picks(t, order, r), order, r)
  {
    if r > 0 {
      PicksAreSorted(t, order, r - 1);
      PickIsSorted(t, order, r - 1);
      PickMembers(t, order, r - 1);
      var b := Pick(t, order, r - 1);
      forall i | 0 <= i < |b|
        ensures Rank(b[i].item.severity, order) == r - 1
      {
        assert b[i] in b;
      }
      AppendRank(Picks(t, order, r - 1), b, order, r - 1);
    }
  }

  lemma ByRankIsTotal(order: seq<string>)
    ensures StableSort.TotalPreorder(ByRankThenIndex(order))
  {
  }

  lemma {:induction false} SortIsPicks(items: seq<AlertItem>, order: seq<string>)
    ensures StableSort.Sort(ByRankThenIndex(order), Tag(items)) == Picks(Tag(items), order, |order| + 1)
  {
    var t, le := Tag(items), ByRankThenIndex(order);
    var sorted, picks := StableSort.Sort(le, t), Picks(t, order, |order| + 1);
    ByRankIsTotal(order);
    PicksAreSorted(t, order, |order| + 1);
    PicksArePermutation(t, order);
    StableSort.SortIsPermutation(le, t);
    StableSort.SortIsSorted(le, t);
    forall x | x in sorted
      ensures x in t
    {
      assert x in multiset(sorted);
    }
    assert forall x, y | x in t && y in t && le(x, y) && le(y, x) :: x == y;
    StableSort.SortedIsUnique(le, sorted, picks);
  }

  lemma {:induction false} UntagPick(items: seq<AlertItem>, order: seq<string>, r: nat)
    ensures Untag(Pick(Tag(items), order, r)) == OfRank(items, order, r)
  {
    if items != [] {
      var m := |items| - 1;
      UntagPick(items[..m], order, r);
      assert Tag(items)[..m] == Tag(items[..m]);
    }
  }

  lemma {:induction false} UntagPicks(items: seq<AlertItem>, order: seq<string>, r: nat)
    ensures Untag(Picks(Tag(items), order, r)) == RankByRank(items, order, r)
  {
    if r > 0 {
      UntagPicks(items, order, r - 1);
      UntagPick(items, order, r - 1);
      var a, b := Picks(Tag(items), order, r - 1), Pick(Tag(items), order, r - 1);
      assert Untag(a + b) == Untag(a) + Untag(b);
    }
  }

  /** The comparator sort is the documented order, whatever the order lists. */
  lemma {:induction false} SortIsRankByRank(items: seq<AlertItem>, order: seq<string>)
    ensures SortItems(items, order) == RankByRank(items, order, |order| + 1)
    ensures |SortItems(items, order)| == |items|
  {
    SortIsPicks(items, order);
    UntagPicks(items, order, |order| + 1);
    StableSort.SortIsPermutation(ByRankThenIndex(order), Tag(items));
  }

  // ---- The header -----------------------------------------------------------------------------

  function CountOf(items: seq<AlertItem>, severity: string): nat {
    if items == [] then 0
    else CountOf(items[..|items| - 1], severity) + (if items[|items| - 1].severity == severity then 1 else 0)
  }

  function Counted(items: seq<AlertItem>, severity: string): seq<string> {
    if CountOf(items, severity) > 0 then [Decimal(CountOf(items, severity)) + " " + severity] else []
  }

  function Breakdown(items: seq<AlertItem>, order: seq<string>): seq<string> {
    if order == [] then [] else Breakdown(items, order[..|order| - 1]) + Counted(items, order[|order| - 1])
  }

  /** The first listed severity that occurs. */
  function Top(items: seq<AlertItem>, order: seq<string>): Option<string> {
    if order == [] then None
    else if CountOf(items, order[0]) > 0 then Some(order[0])
    else Top(items, order[1..])
  }

  function HeadEmoji(items: seq<AlertItem>, order: seq<string>, emojiMap: map<string, string>): string {
    var top := Top(items, order);
    if top.Some? && top.value != "" then EmojiFor(top.value, emojiMap) else BULLET
  }

  function Header(items: seq<AlertItem>, opts: Options): string {
    var breakdown := Breakdown(items, opts.order);
    HeadEmoji(items, opts.order, opts.emojiMap) + " " + opts.prefix + DASH + Decimal(|items|) + " items"
    + (if breakdown == [] then "" else " (" + Join(breakdown, ", ") + ")")
  }

  lemma {:induction false} CountPositive(items: seq<AlertItem>, severity: string)
    ensures CountOf(items, severity) > 0 <==> exists i :: 0 <= i < |items| && items[i].severity == severity
  {
    if items != [] {
      var m := |items| - 1;
      CountPositive(items[..m], severity);
      if CountOf(items[..m], severity) > 0 {
        var i :| 0 <= i < m && items[..m][i].severity == severity;
        assert items[i].severity == severity;
      }
    }
  }

  lemma {:induction false} TopIs(items: seq<AlertItem>, order: seq<string>, k: nat)
    requires k <= |order|
    requires forall i | 0 <= i < k :: CountOf(items, order[i]) == 0
    requires k < |order| ==> CountOf(items, order[k]) > 0
    ensures Top(items, order) == if k < |order| then Some(order[k]) else None
  {
    if k > 0 {
      TopIs(items, order[1..], k - 1);
    }
  }

  lemma {:induction false} SortedByRank(items: seq<AlertItem>, order: seq<string>, i: nat, j: nat)
    requires i < j < |SortItems(items, order)|
    ensures Rank(SortItems(items, order)[i].severity, order) <= Rank(SortItems(items, order)[j].severity, order)
  {
    var t, le := Tag(items), ByRankThenIndex(order);
    ByRankIsTotal(order);
    StableSort.SortIsSorted(le, t);
    var sorted := StableSort.Sort(le, t);
    assert le(sorted[i], sorted[j]);
  }

  /**
   * The header opens with the emoji of the first body line, unless that item's severity is
   * unlisted (or empty): then it is the bullet, even where the line uses a custom emoji.
   */
  lemma HeaderLeadsWithFirstItem(items: seq<AlertItem>, opts: Options)
    requires items != []
    ensures var sorted := SortItems(items, opts.order);
      && |sorted| == |items|
      && HeadEmoji(sorted, opts.order, opts.emojiMap)
         == (if sorted[0].severity in opts.order && sorted[0].severity != ""
             then EmojiFor(sorted[0].severity, opts.emojiMap) else BULLET)
  {
    var order := opts.order;
    var sorted := SortItems(items, order);
    SortIsRankByRank(items, order);
    var k := Rank(sorted[0].severity, order);
    forall i | 0 <= i < k
      ensures CountOf(sorted, order[i]) == 0
    {
      CountPositive(sorted, order[i]);
      forall j | 0 <= j < |sorted|
        ensures sorted[j].severity != order[i]
      {
        if j > 0 {
          SortedByRank(items, order, 0, j);
        }
      }
    }
    if k < |order| {
      CountPositive(sorted, order[k]);
      assert sorted[0].severity == order[k];
    }
    TopIs(sorted, order, k);
  }

  lemma {:induction false} BreakdownOfOne(items: seq<AlertItem>, severity: string)
    ensures Breakdown(items, [severity])
      == if CountOf(items, severity) > 0 then [Decimal(CountOf(items, severity)) + " " + severity] else []
  {
    assert [severity][..0] == [] && Breakdown(items, []) == [];
  }

  lemma {:induction false} BreakdownConcat(items: seq<AlertItem>, s: seq<string>, t: seq<string>)
    ensures Breakdown(items, s + t) == Breakdown(items, s) + Breakdown(items, t)
  {
    if t == [] {
      assert s + t == s && Breakdown(items, t) == [];
    } else {
      var m := |t| - 1;
      assert (s + t)[..|s| + m] == s + t[..m] && (s + t)[|s| + m] == t[m];
      BreakdownConcat(items, s, t[..m]);
    }
  }

  /** The counts appear in the configured order: a listed severity that occurs has one, the others none. */
  lemma {:induction false} BreakdownInOrder(items: seq<AlertItem>, before: seq<string>, severity: string, after: seq<string>)
    ensures Breakdown(items, before + [severity] + after)
      == Breakdown(items, before)
         + (if CountOf(items, severity) > 0 then [Decimal(CountOf(items, severity)) + " " + severity] else [])
         + Breakdown(items, after)
  {
    BreakdownOfOne(items, severity);
    BreakdownConcat(items, before, [severity]);
    BreakdownConcat(items, before + [severity], after);
  }

  /** The text of the header, when some listed severity occurs. */
  lemma {:induction false} HeaderText(items: seq<AlertItem>, opts: Options, top: string)
    requires Top(items, opts.order) == Some(top) && top != "" && Breakdown(items, opts.order) != []
    ensures Header(items, opts)
      == EmojiFor(top, opts.emojiMap) + " " + opts.prefix + " \U{2014} " + Decimal(|items|) + " items"
         + (" (" + Join(Breakdown(items, opts.order), ", ") + ")")
  {
  }

  /** For instance "2 critical, 1 high" for three items. */
  lemma {:induction false} BreakdownExample(items: seq<AlertItem>)
    requires CountOf(items, "critical") == 2 && CountOf(items, "high") == 1 && CountOf(items, "low") == 0
    ensures Breakdown(items, ["critical"] + ["low"] + ["high"]) == ["2 critical", "1 high"]
  {
    BreakdownInOrder(items, ["critical"], "low", ["high"]);
    BreakdownOfOne(items, "critical");
    BreakdownOfOne(items, "high");
    assert Decimal(2) == "2" && Decimal(1) == "1";
    assert "2" + " " + "critical" == "2 critical" && "1" + " " + "high" == "1 high";
  }

  ghost predicate Distinct(order: seq<string>) {
    forall i, j | 0 <= i < j < |order| :: order[i] != order[j]
  }

  /** The counts of all the listed severities. */
  function ListedCount(items: seq<AlertItem>, order: seq<string>): nat {
    if order == [] then 0
    else ListedCount(items, order[..|order| - 1]) + CountOf(items, order[|order| - 1])
  }

  function UnlistedCount(items: seq<AlertItem>, order: seq<string>): nat {
    if items == [] then 0
    else UnlistedCount(items[..|items| - 1], order) + (if items[|items| - 1].severity in order then 0 else 1)
  }

  lemma {:induction false} OneMoreItem(items: seq<AlertItem>, last: AlertItem, order: seq<string>)
    requires Distinct(order)
    ensures ListedCount(items + [last], order)
      == ListedCount(items, order) + (if last.severity in order then 1 else 0)
  {
    if order != [] {
      var m := |order| - 1;
      assert order == order[..m] + [order[m]] && order[m] !in order[..m];
      OneMoreItem(items, last, order[..m]);
      assert (items + [last])[..|items|] == items;
    }
  }

  /** The breakdown misses only unlisted severities: with them its counts add up to the total. */
  lemma {:induction false} CountsAddUp(items: seq<AlertItem>, order: seq<string>)
    requires Distinct(order)
    ensures ListedCount(items, order) + UnlistedCount(items, order) == |items|
  {
    if items == [] {
      NothingListed(order);
    } else {
      var m := |items| - 1;
      assert items == items[..m] + [items[m]];
      CountsAddUp(items[..m], order);
      OneMoreItem(items[..m], items[m], order);
    }
  }

  lemma {:induction false} NothingListed(order: seq<string>)
    ensures ListedCount([], order) == 0
  {
    if order != [] {
      NothingListed(order[..|order| - 1]);
    }
  }

  // ---- The length budget -----------------------------------------------------------------------

  const RESERVE := 16

  /** Everything the layout depends on. */
  datatype Plan = Plan(header: string, lines: seq<string>, pointer: string, maxChars: int)

  function FooterLines(p: Plan): seq<string> {
    if p.pointer == "" then [] else ["Details: " + p.pointer]
  }

  function FooterCost(p: Plan): nat {
    if p.pointer == "" then 0 else 10 + |p.pointer|
  }

  /** Characters of the header and the first k lines with their newlines. */
  function Used(p: Plan, k: nat): nat
    requires k <= |p.lines|
  {
    if k == 0 then |p.header| else Used(p, k - 1) + 1 + |p.lines[k - 1]|
  }

  /** The loop's test for line i. */
  predicate Fits(p: Plan, i: nat)
    requires i < |p.lines|
  {
    Used(p, i) + 1 + |p.lines[i]| + FooterCost(p) + (if |p.lines| - i > 1 then RESERVE else 0) <= p.maxChars
  }

  ghost predicate StopsAt(p: Plan, k: nat) {
    && k <= |p.lines|
    && (forall i | 0 <= i < k :: Fits(p, i))
    && (k < |p.lines| ==> !Fits(p, k))
  }

  function Shown(p: Plan, k: nat): (r: nat)
    requires k <= |p.lines|
    requires forall i | 0 <= i < k :: Fits(p, i)
    ensures StopsAt(p, r)
    decreases |p.lines| - k
  {
    if k == |p.lines| || !Fits(p, k) then k else Shown(p, k + 1)
  }

  lemma StopIsUnique(p: Plan, j: nat, k: nat)
    requires StopsAt(p, j) && StopsAt(p, k)
    ensures j == k
  {
  }

  function MoreLine(k: nat): string {
    ELLIPSIS + " +" + Decimal(k) + " more"
  }

  /** Header, the first k lines, a count of the others if there are any, and the pointer. */
  function Layout(p: Plan, k: nat): seq<string>
    requires k <= |p.lines|
  {
    [p.header] + p.lines[..k] + (if k < |p.lines| then [MoreLine(|p.lines| - k)] else []) + FooterLines(p)
  }

  function Message(p: Plan): string {
    Join(Layout(p, Shown(p, 0)), "\n")
  }

  lemma {:induction false} BodyLength(p: Plan, k: nat)
    requires k <= |p.lines|
    ensures |Join([p.header] + p.lines[..k], "\n")| == Used(p, k)
  {
    if k > 0 {
      BodyLength(p, k - 1);
      assert [p.header] + p.lines[..k] == [p.header] + p.lines[..k - 1] + [p.lines[k - 1]];
      JoinOneMore([p.header] + p.lines[..k - 1], p.lines[k - 1], "\n");
    } else {
      assert [p.header] + p.lines[..k] == [p.header];
    }
  }

  /** Header first, and the pointer, if there is one, on the last line. */
  lemma {:induction false} LayoutEnds(p: Plan, k: nat)
    requires k <= |p.lines|
    ensures var lines := Layout(p, k);
      && lines[0] == p.header
      && (p.pointer != "" ==> lines[|lines| - 1] == "Details: " + p.pointer)
      && (k < |p.lines| ==> lines[k + 1] == ELLIPSIS + " +" + Decimal(|p.lines| - k) + " more")
      && |lines| == 1 + k + (if k < |p.lines| then 1 else 0) + (if p.pointer != "" then 1 else 0)
  {
  }

  /** The exact length of a layout, for any number of items. */
  lemma {:induction false} LayoutLength(p: Plan, k: nat)
    requires k <= |p.lines|
    ensures |Join(Layout(p, k), "\n")|
      == Used(p, k) + (if k < |p.lines| then 9 + |Decimal(|p.lines| - k)| else 0) + FooterCost(p)
  {
    var body := [p.header] + p.lines[..k];
    if k < |p.lines| {
      var more := MoreLine(|p.lines| - k);
      assert Layout(p, k) == body + [more] + FooterLines(p);
      assert |more| == 8 + |Decimal(|p.lines| - k)|;
      JoinOneMore(body, more, "\n");
      FooterLength(p, body + [more]);
    } else {
      assert Layout(p, k) == body + FooterLines(p);
      FooterLength(p, body);
    }
    BodyLength(p, k);
  }

  lemma {:induction false} FooterLength(p: Plan, parts: seq<string>)
    requires parts != []
    ensures |Join(parts + FooterLines(p), "\n")| == |Join(parts, "\n")| + FooterCost(p)
  {
    if p.pointer == "" {
      assert parts + FooterLines(p) == parts;
    } else {
      JoinOneMore(parts, "Details: " + p.pointer, "\n");
    }
  }

  /**
   * When `maxChars` really is a hard cap, with fewer than 10^7 items: exactly when the first
   * line fits, or the header, the count line and the pointer already do.
   */
  lemma CapHoldsExactly(p: Plan)
    requires 1 <= |p.lines| < Power(7)
    ensures |Message(p)| <= p.maxChars
      <==> Fits(p, 0) || |p.header| + 9 + |Decimal(|p.lines|)| + FooterCost(p) <= p.maxChars
  {
    var k := Shown(p, 0);
    LayoutLength(p, k);
    if k == 0 {
      assert !Fits(p, 0);
    } else {
      assert Fits(p, 0) && Fits(p, k - 1);
      assert Used(p, k) == Used(p, k - 1) + 1 + |p.lines[k - 1]|;
      if k < |p.lines| {
        DecimalLength(|p.lines| - k, 7);
      }
    }
  }

  /** The simple sufficient condition: room for header, pointer and the reserve. */
  lemma CapHolds(p: Plan)
    requires 1 <= |p.lines| < Power(7)
    requires |p.header| + FooterCost(p) + RESERVE <= p.maxChars
    ensures |Message(p)| <= p.maxChars
  {
    DecimalLength(|p.lines|, 7);
    CapHoldsExactly(p);
  }

  /** Lines are dropped only for lack of room: no longer body leaves the reserve free. */
  lemma {:induction false} ShownIsMaximal(p: Plan, k: nat)
    requires Shown(p, 0) < k <= |p.lines|
    ensures Used(p, k) + FooterCost(p) + RESERVE > p.maxChars
  {
    var stop := Shown(p, 0);
    assert !Fits(p, stop);
    assert Used(p, stop + 1) == Used(p, stop) + 1 + |p.lines[stop]|;
    UsedGrows(p, stop + 1, k);
  }

  /**
   * Everything is shown exactly when the full text fits and, before the last line, the reserve
   * is still free: a text that fits may be truncated for a count line it would not need.
   */
  lemma {:induction false} AllShownExactly(p: Plan)
    requires |p.lines| >= 1
    ensures Shown(p, 0) == |p.lines| <==>
      && Used(p, |p.lines|) + FooterCost(p) <= p.maxChars
      && (|p.lines| >= 2 ==> Used(p, |p.lines| - 1) + FooterCost(p) + RESERVE <= p.maxChars)
  {
    var n := |p.lines|;
    assert Used(p, n) == Used(p, n - 1) + 1 + |p.lines[n - 1]|;
    if Shown(p, 0) == n {
      assert Fits(p, n - 1);
      if n >= 2 {
        assert Fits(p, n - 2);
      }
    } else {
      var stop := Shown(p, 0);
      assert !Fits(p, stop);
      if stop < n - 1 {
        ShownIsMaximal(p, n - 1);
      }
    }
  }

  lemma {:induction false} UsedGrows(p: Plan, j: nat, k: nat)
    requires j <= k <= |p.lines|
    ensures Used(p, j) + (k - j) <= Used(p, k)
  {
    if j < k {
      UsedGrows(p, j, k - 1);
    }
  }

  // ---- The code ------------------------------------------------------------------------------------

  function PlanOf(items: seq<AlertItem>, opts: Options): Plan {
    var sorted := SortItems(items, opts.order);
    Plan(Header(sorted, opts), Lines(sorted, opts.emojiMap), opts.detailsPointer, opts.maxChars)
  }

  method CountSeverities(items: seq<AlertItem>) returns (counts: map<string, nat>)
    ensures forall s :: s in counts <==> CountOf(items, s) > 0
    ensures forall s | s in counts :: counts[s] == CountOf(items, s)
  {
    counts := map[];
    for i := 0 to |items|
      invariant forall s :: s in counts <==> CountOf(items[..i], s) > 0
      invariant forall s | s in counts :: counts[s] == CountOf(items[..i], s)
    {
      assert items[..i + 1][..i] == items[..i];
      var sev := items[i].severity;
      counts := counts[sev := (if sev in counts then counts[sev] else 0) + 1];
    }
    assert items[..|items|] == items;
  }

  method FindTop(counts: map<string, nat>, order: seq<string>, ghost items: seq<AlertItem>) returns (top: Option<string>)
    requires forall s :: s in counts <==> CountOf(items, s) > 0
    requires forall s | s in counts :: counts[s] > 0
    ensures top == Top(items, order)
  {
    for i := 0 to |order|
      invariant forall j | 0 <= j < i :: CountOf(items, order[j]) == 0
    {
      if order[i] in counts && counts[order[i]] > 0 {
        TopIs(items, order, i);
        return Some(order[i]);
      }
    }
    TopIs(items, order, |order|);
    return None;
  }

  method BuildHeader(items: seq<AlertItem>, counts: map<string, nat>, opts: Options) returns (r: string)
    requires forall s :: s in counts <==> CountOf(items, s) > 0
    requires forall s | s in counts :: counts[s] == CountOf(items, s)
    ensures r == Header(items, opts)
  {
    var breakdown := [];
    for i := 0 to |opts.order|
      invariant breakdown == Breakdown(items, opts.order[..i])
    {
      var sev := opts.order[i];
      assert opts.order[..i + 1][..i] == opts.order[..i];
      var c := if sev in counts then counts[sev] else 0;
      assert breakdown + [] == breakdown;
      if c > 0 {
        breakdown := breakdown + [Decimal(c) + " " + sev];
      }
    }
    assert opts.order[..|opts.order|] == opts.order;
    var top := FindTop(counts, opts.order, items);
    var headEmoji := if top.Some? && top.value != "" then EmojiFor(top.value, opts.emojiMap) else BULLET;
    var breakdownStr := if |breakdown| > 0 then " (" + Join(breakdown, ", ") + ")" else "";
    return headEmoji + " " + opts.prefix + DASH + Decimal(|items|) + " items" + breakdownStr;
  }

  /** After i lines: all of them fitted. */
  ghost predicate Filled(p: Plan, i: nat, bodyLines: seq<string>, rendered: int) {
    && i <= |p.lines| && bodyLines == p.lines[..i] && rendered == Used(p, i)
    && forall j | 0 <= j < i :: Fits(p, j)
  }

  lemma {:induction false} FilledStep(p: Plan, i: nat, bodyLines: seq<string>, rendered: int, line: string)
    requires Filled(p, i, bodyLines, rendered) && i < |p.lines| && line == p.lines[i]
    ensures Fits(p, i) <==>
      rendered + (1 + |line|) + FooterCost(p) + (if |p.lines| - i > 1 then RESERVE else 0) <= p.maxChars
    ensures Fits(p, i) ==> Filled(p, i + 1, bodyLines + [line], rendered + (1 + |line|))
    ensures !Fits(p, i) ==> i == Shown(p, 0)
  {
    if !Fits(p, i) {
      StopIsUnique(p, i, Shown(p, 0));
    }
  }

  /** The digest loop: lines are added while the reserve stays free. */
  method FillBody(sorted: seq<AlertItem>, emojiMap: map<string, string>, headerCost: nat, footerCost: nat,
                  maxChars: int, ghost p: Plan)
    returns (bodyLines: seq<string>, truncated: nat)
    requires p.lines == Lines(sorted, emojiMap) && p.maxChars == maxChars
    requires headerCost == |p.header| && footerCost == FooterCost(p)
    ensures bodyLines == p.lines[..Shown(p, 0)]
    ensures truncated + |bodyLines| == |sorted|
  {
    bodyLines, truncated := [], 0;
    var renderedSoFar := headerCost;
    for i := 0 to |sorted|
      invariant truncated == 0 && Filled(p, i, bodyLines, renderedSoFar)
    {
      var line := Line(sorted[i], emojiMap);
      var lineCost := 1 + |line|;
      var remaining := |sorted| - i;
      FilledStep(p, i, bodyLines, renderedSoFar, line);
      var projected := renderedSoFar + lineCost + footerCost + (if remaining > 1 then RESERVE else 0);
      if projected > maxChars {
        truncated := |sorted| - i;
        return;
      }
      bodyLines := bodyLines + [line];
      renderedSoFar := renderedSoFar + lineCost;
    }
    StopIsUnique(p, |sorted|, Shown(p, 0));
  }

  method BuildDigest(items: seq<AlertItem>, opts: Options) returns (r: string)
    ensures r == Message(PlanOf(items, opts))
  {
    var sorted := SortItems(items, opts.order);
    SortIsRankByRank(items, opts.order);
    var counts := CountSeverities(sorted);
    var header := BuildHeader(sorted, counts, opts);
    var footerLines := if opts.detailsPointer != "" then ["Details: " + opts.detailsPointer] else [];
    var footerStr := if |footerLines| > 0 then "\n" + Join(footerLines, "\n") else "";
    ghost var p := PlanOf(items, opts);
    var bodyLines, truncated := FillBody(sorted, opts.emojiMap, |header|, |footerStr|, opts.maxChars, p);
    r := Assemble(header, bodyLines, truncated, footerLines, p);
  }

  method Assemble(header: string, bodyLines: seq<string>, truncated: nat, footerLines: seq<string>, ghost p: Plan)
    returns (r: string)
    requires header == p.header && footerLines == FooterLines(p)
    requires bodyLines == p.lines[..Shown(p, 0)] && truncated == |p.lines| - Shown(p, 0)
    ensures r == Message(p)
  {
    var out := [header] + bodyLines;
    if truncated > 0 {
      out := out + [MoreLine(truncated)];
    }
    out := out + footerLines;
    assert out == Layout(p, Shown(p, 0));
    return Join(out, "\n");
  }

  /**
   * Nothing for no items, one message each up to the threshold, one digest above it.
   */
  method BuildAlertDigest(items: seq<AlertItem>, opts: Options) returns (r: seq<string>)
    ensures items == [] ==> r == []
    ensures 0 < |items| <= opts.threshold ==>
      |r| == |items| && forall i | 0 <= i < |r| :: r[i] == RenderIndividual(items[i], opts.emojiMap)
    ensures |items| > 0 && |items| > opts.threshold ==> r == [Message(PlanOf(items, opts))]
  {
    if |items| == 0 {
      return [];
    }
    if |items| <= opts.threshold {
      return seq(|items|, i requires 0 <= i < |items| => RenderIndividual(items[i], opts.emojiMap));
    }
    var message := BuildDigest(items, opts);
    return [message];
  }

  /** The plan of a digest has one line per item, in the documented order. */
  lemma {:induction false} DigestLines(items: seq<AlertItem>, opts: Options)
    ensures var p := PlanOf(items, opts);
      && |p.lines| == |items|
      && p.lines == Lines(RankByRank(items, opts.order, |opts.order| + 1), opts.emojiMap)
  {
    SortIsRankByRank(items, opts.order);
  }
}
