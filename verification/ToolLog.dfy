/**
 * Decay compaction of a tool log (`compactToolLogDecay`, src/budget/budget-state.ts).
 *
 * A log splits into blocks: a system or user message stands alone, an assistant
 * message takes the tool messages that directly follow it, and a tool message that
 * follows neither is a block of its own. The last two kinds are exchange units.
 * Compaction keeps the protected blocks and the best `keepTopK` units. The score
 * is an arbitrary function of a unit and its distance from the end of the log.
 */
module ToolLog {
  import opened Wrappers
  import StableSort

  datatype Role = User | Assistant | Tool | System

  datatype Message = Message(role: Role, content: string, toolName: Option<string>)

  datatype CompactionError = HalfLifeNotPositive | KeepTopKNegative

  /** A block of consecutive messages and the position of its first one. */
  datatype Block = Block(messages: seq<Message>, startIndex: nat)

  predicate Protected(m: Message) {
    m.role == System || m.role == User
  }

  // ---- Blocks ---------------------------------------------------------------------

  function LeadingTools(log: seq<Message>): (k: nat)
    ensures k <= |log|
  {
    if log == [] || log[0].role != Tool then 0 else 1 + LeadingTools(log[1..])
  }

  function BlockLength(log: seq<Message>): (k: nat)
    requires log != []
    ensures 1 <= k <= |log|
  {
    if log[0].role == Assistant then 1 + LeadingTools(log[1..]) else 1
  }

  function Blocks(log: seq<Message>, start: nat): seq<Block> {
    if log == [] then []
    else
      var k := BlockLength(log);
      [Block(log[..k], start)] + Blocks(log[k..], start + k)
  }

  predicate IsUnit(b: Block) {
    b.messages != [] && !Protected(b.messages[0])
  }

  function Units(blocks: seq<Block>): seq<Block> {
    if blocks == [] then []
    else if IsUnit(blocks[0]) then [blocks[0]] + Units(blocks[1..])
    else Units(blocks[1..])
  }

  function Flatten(blocks: seq<Block>): seq<Message> {
    if blocks == [] then [] else blocks[0].messages + Flatten(blocks[1..])
  }

  /** The protected blocks and the units that start at a kept position, in log order. */
  function Select(blocks: seq<Block>, kept: set<nat>): seq<Block> {
    if blocks == [] then []
    else if IsUnit(blocks[0]) && blocks[0].startIndex !in kept then Select(blocks[1..], kept)
    else [blocks[0]] + Select(blocks[1..], kept)
  }

  /** The log without the evicted units. */
  function Rebuild(log: seq<Message>, kept: set<nat>): seq<Message> {
    Flatten(Select(Blocks(log, 0), kept))
  }

  /** The blocks are consecutive and nothing is lost. */
  lemma {:induction false} BlocksPartition(log: seq<Message>, start: nat)
    ensures Flatten(Blocks(log, start)) == log
  {
    if log != [] {
      var k := BlockLength(log);
      var first, rest := Block(log[..k], start), Blocks(log[k..], start + k);
      assert log == log[..k] + log[k..];
      BlocksPartition(log[k..], start + k);
      FlattenCons(first, rest);
    }
  }

  lemma {:induction false} FlattenCons(b: Block, rest: seq<Block>)
    ensures Flatten([b] + rest) == b.messages + Flatten(rest)
  {
    assert ([b] + rest)[1..] == rest;
  }

  ghost predicate Increasing(blocks: seq<Block>) {
    forall i, j | 0 <= i < j < |blocks| :: blocks[i].startIndex < blocks[j].startIndex
  }

  lemma Prepended(first: Block, rest: seq<Block>)
    requires Increasing(rest) && forall i | 0 <= i < |rest| :: first.startIndex < rest[i].startIndex
    ensures Increasing([first] + rest)
    ensures forall i | 0 <= i < |[first] + rest| :: first.startIndex <= ([first] + rest)[i].startIndex
  {
  }

  lemma {:induction false} BlocksIncrease(log: seq<Message>, start: nat)
    ensures Increasing(Blocks(log, start))
    ensures forall i | 0 <= i < |Blocks(log, start)| :: start <= Blocks(log, start)[i].startIndex
  {
    if log != [] {
      var k := BlockLength(log);
      var first, rest := Block(log[..k], start), Blocks(log[k..], start + k);
      assert Blocks(log, start) == [first] + rest;
      BlocksIncrease(log[k..], start + k);
      Prepended(first, rest);
    }
  }

  lemma {:induction false} UnitsIncrease(blocks: seq<Block>)
    requires Increasing(blocks)
    ensures Increasing(Units(blocks))
    ensures forall u | u in Units(blocks) :: u in blocks
  {
    if blocks != [] {
      UnitsIncrease(blocks[1..]);
      assert blocks == [blocks[0]] + blocks[1..];
      forall u | u in Units(blocks[1..])
        ensures blocks[0].startIndex < u.startIndex
      {
        var i :| 0 <= i < |blocks[1..]| && blocks[1..][i] == u;
        assert u == blocks[i + 1];
      }
    }
  }

  // ---- Choosing the units to keep ---------------------------------------------------

  datatype Scored = Scored(unit: Block, score: real)

  function ByScore(): (Scored, Scored) -> bool {
    (a: Scored, b: Scored) => a.score >= b.score
  }

  ghost function ByScoreThenAge(): (Scored, Scored) -> bool {
    (a: Scored, b: Scored) => a.score > b.score || (a.score == b.score && a.unit.startIndex <= b.unit.startIndex)
  }

  /** Units with the score of each, given its number of turns from the end. */
  function Score(units: seq<Block>, score: (seq<Message>, nat) -> real): seq<Scored>
  {
    seq(|units|, k requires 0 <= k < |units| => Scored(units[k], score(units[k].messages, |units| - 1 - k)))
  }

  function Starts(s: seq<Scored>): set<nat> {
    set x | x in s :: x.unit.startIndex
  }

  function Min(a: nat, b: nat): nat {
    if a <= b then a else b
  }

  /** Positions of the first `k` units in the order of a stable sort by descending score. */
  function TopUnits(scored: seq<Scored>, k: nat): set<nat> {
    StableSort.SortIsPermutation(ByScore(), scored);
    Starts(StableSort.Sort(ByScore(), scored)[..Min(k, |scored|)])
  }

  ghost predicate Chronological(scored: seq<Scored>) {
    forall i, j | 0 <= i < j < |scored| :: scored[i].unit.startIndex < scored[j].unit.startIndex
  }

  /** What keeping the top `k` units means: the number kept, and who beats whom. */
  ghost predicate IsTop(scored: seq<Scored>, k: nat, kept: set<nat>) {
    && kept <= Starts(scored)
    && |kept| == Min(k, |scored|)
    && forall a, b | a in scored && b in scored && a.unit.startIndex in kept && b.unit.startIndex !in kept ::
         a.score > b.score || (a.score == b.score && a.unit.startIndex < b.unit.startIndex)
  }

  lemma {:induction false} InsertBreaksTiesByAge(x: Scored, s: seq<Scored>)
    requires forall y | y in s :: x.unit.startIndex < y.unit.startIndex
    ensures StableSort.Insert(ByScore(), x, s) == StableSort.Insert(ByScoreThenAge(), x, s)
  {
    if s != [] {
      assert s[0] in s;
      InsertBreaksTiesByAge(x, s[1..]);
    }
  }

  /** Stability: among equal scores the sort leaves the older unit first. */
  lemma {:induction false} SortBreaksTiesByAge(s: seq<Scored>)
    requires Chronological(s)
    ensures StableSort.Sort(ByScore(), s) == StableSort.Sort(ByScoreThenAge(), s)
  {
    if s != [] {
      SortBreaksTiesByAge(s[1..]);
      var rest := StableSort.Sort(ByScore(), s[1..]);
      StableSort.SortIsPermutation(ByScore(), s[1..]);
      forall y | y in rest
        ensures s[0].unit.startIndex < y.unit.startIndex
      {
        assert y in multiset(rest);
        var j :| 0 <= j < |s[1..]| && s[1..][j] == y;
        assert y == s[j + 1];
      }
      InsertBreaksTiesByAge(s[0], rest);
    }
  }

  ghost predicate Distinct(s: seq<Scored>) {
    forall i, j | 0 <= i < j < |s| :: s[i].unit.startIndex != s[j].unit.startIndex
  }

  lemma {:induction false} DistinctStarts(s: seq<Scored>)
    requires Distinct(s)
    ensures |Starts(s)| == |s|
  {
    if s != [] {
      DistinctStarts(s[1..]);
      assert s == [s[0]] + s[1..];
      assert Starts(s) == {s[0].unit.startIndex} + Starts(s[1..]);
      assert s[0].unit.startIndex !in Starts(s[1..]);
    }
  }

  lemma {:induction false} InsertKeepsDistinct(x: Scored, s: seq<Scored>)
    requires Distinct(s) && x.unit.startIndex !in Starts(s)
    ensures Distinct(StableSort.Insert(ByScore(), x, s))
    ensures Starts(StableSort.Insert(ByScore(), x, s)) == Starts(s) + {x.unit.startIndex}
  {
    if s == [] || ByScore()(x, s[0]) {
      forall y | y in s
        ensures x.unit.startIndex != y.unit.startIndex
      {
        assert y.unit.startIndex in Starts(s);
      }
    } else {
      StartsOfTail(s);
      var rest := StableSort.Insert(ByScore(), x, s[1..]);
      InsertKeepsDistinct(x, s[1..]);
      assert s[0].unit.startIndex != x.unit.startIndex by {
        assert s[0] in s;
      }
      forall y | y in rest
        ensures s[0].unit.startIndex != y.unit.startIndex
      {
        assert y.unit.startIndex in Starts(rest);
      }
      var t := [s[0]] + rest;
      assert t[1..] == rest && t[0] == s[0];
      StartsOfTail(t);
    }
  }

  lemma StartsOfTail(s: seq<Scored>)
    requires s != []
    ensures Starts(s) == {s[0].unit.startIndex} + Starts(s[1..])
    ensures Distinct(s) ==> s[0].unit.startIndex !in Starts(s[1..])
  {
    assert s == [s[0]] + s[1..];
  }

  lemma {:induction false} SortKeepsDistinct(s: seq<Scored>)
    requires Distinct(s)
    ensures Distinct(StableSort.Sort(ByScore(), s))
    ensures Starts(StableSort.Sort(ByScore(), s)) == Starts(s)
  {
    if s != [] {
      StartsOfTail(s);
      SortKeepsDistinct(s[1..]);
      InsertKeepsDistinct(s[0], StableSort.Sort(ByScore(), s[1..]));
    }
  }

  /** The stable sort and the cut keep `k` units and evict no better or older one. */
  lemma TopUnitsAreTop(scored: seq<Scored>, k: nat)
    requires Chronological(scored)
    ensures IsTop(scored, k, TopUnits(scored, k))
  {
    var t := StableSort.Sort(ByScore(), scored);
    var m := Min(k, |scored|);
    StableSort.SortIsPermutation(ByScore(), scored);
    SortKeepsDistinct(scored);
    DistinctStarts(t[..m]);
    forall p | p in TopUnits(scored, k)
      ensures p in Starts(scored)
    {
      var x :| x in t[..m] && x.unit.startIndex == p;
      assert x in t;
    }
    forall a, b | a in scored && b in scored
        && a.unit.startIndex in TopUnits(scored, k) && b.unit.startIndex !in TopUnits(scored, k)
      ensures a.score > b.score || (a.score == b.score && a.unit.startIndex < b.unit.startIndex)
    {
      KeptBeatsEvicted(scored, k, a, b);
    }
  }

  lemma PrefixStarts(t: seq<Scored>, m: nat, i: nat)
    requires Distinct(t) && m <= |t| && i < |t|
    ensures t[i].unit.startIndex in Starts(t[..m]) <==> i < m
  {
    if i < m {
      assert t[..m][i] in t[..m];
    } else {
      forall x | x in t[..m]
        ensures x.unit.startIndex != t[i].unit.startIndex
      {
        var j :| 0 <= j < m && t[..m][j] == x;
      }
    }
  }

  lemma KeptBeatsEvicted(scored: seq<Scored>, k: nat, a: Scored, b: Scored)
    requires Chronological(scored) && a in scored && b in scored
    requires a.unit.startIndex in TopUnits(scored, k) && b.unit.startIndex !in TopUnits(scored, k)
    ensures a.score > b.score || (a.score == b.score && a.unit.startIndex < b.unit.startIndex)
  {
    var t := StableSort.Sort(ByScore(), scored);
    StableSort.SortIsPermutation(ByScore(), scored);
    SortKeepsDistinct(scored);
    assert a in multiset(t) && b in multiset(t);
    var i :| 0 <= i < |t| && t[i] == a;
    var j :| 0 <= j < |t| && t[j] == b;
    PrefixStarts(t, Min(k, |scored|), i);
    PrefixStarts(t, Min(k, |scored|), j);
    SortedPair(scored, i, j);
  }

  lemma {:induction false} SortedPair(scored: seq<Scored>, i: nat, j: nat)
    requires Chronological(scored)
    requires var t := StableSort.Sort(ByScore(), scored); i < j < |t|
    ensures var t := StableSort.Sort(ByScore(), scored);
      t[i].score > t[j].score || (t[i].score == t[j].score && t[i].unit.startIndex < t[j].unit.startIndex)
  {
    var t := StableSort.Sort(ByScore(), scored);
    SortBreaksTiesByAge(scored);
    StableSort.SortIsSorted(ByScoreThenAge(), scored);
    SortKeepsDistinct(scored);
    assert ByScoreThenAge()(t[i], t[j]);
  }

  /** Only one choice satisfies `IsTop`, so the sort cannot matter beyond it. */
  lemma TopIsUnique(scored: seq<Scored>, k: nat, kept: set<nat>, kept': set<nat>)
    requires Chronological(scored) && IsTop(scored, k, kept) && IsTop(scored, k, kept')
    ensures kept == kept'
  {
    forall p, q | p in kept && p !in kept' && q in kept'
      ensures q in kept
    {
      var a :| a in scored && a.unit.startIndex == p;
      var b :| b in scored && b.unit.startIndex == q;
    }
    assert kept <= kept' || kept' <= kept;
    if kept <= kept' {
      SubsetOfSameSize(kept, kept');
    } else {
      SubsetOfSameSize(kept', kept);
    }
  }

  lemma SubsetOfSameSize(s: set<nat>, t: set<nat>)
    requires s <= t && |s| == |t|
    ensures s == t
  {
    assert t == s + (t - s);
    assert |t - s| == 0;
  }

  // ---- Regrouping ---------------------------------------------------------------------

  predicate ValidBlock(b: Block) {
    && b.messages != []
    && if b.messages[0].role == Assistant then forall i | 0 < i < |b.messages| :: b.messages[i].role == Tool
       else |b.messages| == 1
  }

  /** No lone tool block stands where a preceding assistant block would absorb it. */
  predicate Fenced(blocks: seq<Block>, afterAssistant: bool)
    requires forall b | b in blocks :: ValidBlock(b)
  {
    if blocks == [] then true
    else
      assert blocks[0] in blocks && ValidBlock(blocks[0]);
      match blocks[0].messages[0].role
      case Assistant => Fenced(blocks[1..], true)
      case Tool => !afterAssistant && Fenced(blocks[1..], false)
      case _ => Fenced(blocks[1..], false)
  }

  lemma {:induction false} LeadingToolsAreTools(log: seq<Message>)
    ensures forall i | 0 <= i < LeadingTools(log) :: log[i].role == Tool
    ensures LeadingTools(log) < |log| ==> log[LeadingTools(log)].role != Tool
  {
    if log != [] && log[0].role == Tool {
      LeadingToolsAreTools(log[1..]);
    }
  }

  lemma {:induction false} BlocksAreValid(log: seq<Message>, start: nat)
    ensures forall b | b in Blocks(log, start) :: ValidBlock(b)
    ensures log != [] ==> Blocks(log, start)[0].messages[0] == log[0]
  {
    if log != [] {
      var k := BlockLength(log);
      BlocksAreValid(log[k..], start + k);
      assert ValidBlock(Block(log[..k], start)) by {
        LeadingToolsAreTools(log[1..]);
      }
    }
  }

  lemma {:induction false} BlocksAreFenced(log: seq<Message>, start: nat, afterAssistant: bool)
    requires afterAssistant && log != [] ==> log[0].role != Tool
    ensures forall b | b in Blocks(log, start) :: ValidBlock(b)
    ensures Fenced(Blocks(log, start), afterAssistant)
  {
    BlocksAreValid(log, start);
    if log != [] {
      var k := BlockLength(log);
      LeadingToolsAreTools(log[1..]);
      BlocksAreFenced(log[k..], start + k, log[0].role == Assistant);
      assert Blocks(log, start)[1..] == Blocks(log[k..], start + k);
    }
  }

  lemma {:induction false} SelectKeepsFences(blocks: seq<Block>, kept: set<nat>, afterAssistant: bool)
    requires forall b | b in blocks :: ValidBlock(b)
    requires Fenced(blocks, afterAssistant)
    ensures forall b | b in Select(blocks, kept) :: ValidBlock(b) && b in blocks
    ensures Fenced(Select(blocks, kept), afterAssistant)
  {
    if blocks != [] {
      assert blocks[0] in blocks;
      var head := blocks[0].messages[0].role;
      SelectKeepsFences(blocks[1..], kept, head == Assistant);
      var rest := Select(blocks[1..], kept);
      assert ([blocks[0]] + rest)[1..] == rest;
      if IsUnit(blocks[0]) && blocks[0].startIndex !in kept && head == Assistant && !afterAssistant {
        assert Fenced(rest, true) ==> Fenced(rest, false);
      }
    }
  }

  lemma {:induction false} ToolsThenOther(tools: seq<Message>, rest: seq<Message>)
    requires forall i | 0 <= i < |tools| :: tools[i].role == Tool
    requires rest != [] ==> rest[0].role != Tool
    ensures LeadingTools(tools + rest) == |tools|
  {
    if tools == [] {
      assert tools + rest == rest;
    } else {
      assert (tools + rest)[1..] == tools[1..] + rest;
      ToolsThenOther(tools[1..], rest);
    }
  }

  ghost predicate SameMessages(s: seq<Block>, t: seq<Block>) {
    |s| == |t| && forall i | 0 <= i < |s| :: s[i].messages == t[i].messages
  }

  /** Fenced blocks are found again when their messages are regrouped. */
  lemma {:induction false} Regroup(blocks: seq<Block>, start: nat, afterAssistant: bool)
    requires forall b | b in blocks :: ValidBlock(b)
    requires Fenced(blocks, afterAssistant)
    ensures SameMessages(Blocks(Flatten(blocks), start), blocks)
    ensures afterAssistant && Flatten(blocks) != [] ==> Flatten(blocks)[0].role != Tool
  {
    if blocks != [] {
      assert blocks[0] in blocks;
      var m, rest := blocks[0].messages, Flatten(blocks[1..]);
      Regroup(blocks[1..], start + |m|, m[0].role == Assistant);
      FirstBlockAgain(m, rest, start);
      assert Flatten(blocks) == m + rest;
      assert SameMessages([Block(m, start)] + Blocks(rest, start + |m|), blocks);
    }
  }

  lemma {:induction false} FirstBlockAgain(m: seq<Message>, rest: seq<Message>, start: nat)
    requires ValidBlock(Block(m, start))
    requires m[0].role == Assistant && rest != [] ==> rest[0].role != Tool
    ensures Blocks(m + rest, start) == [Block(m, start)] + Blocks(rest, start + |m|)
  {
    var log := m + rest;
    if m[0].role == Assistant {
      var tools := m[1..];
      assert forall i | 0 <= i < |tools| :: tools[i] == m[i + 1];
      assert m == [m[0]] + tools;
      assert log == [m[0]] + (tools + rest);
      ToolsThenOther(tools, rest);
    }
    assert BlockLength(log) == |m|;
    assert log[..|m|] == m && log[|m|..] == rest;
  }

  /** Grouping the compacted log again yields exactly the kept blocks. */
  lemma {:induction false} RegroupingYieldsKept(log: seq<Message>, kept: set<nat>)
    ensures SameMessages(Blocks(Rebuild(log, kept), 0), Select(Blocks(log, 0), kept))
  {
    BlocksAreFenced(log, 0, false);
    SelectKeepsFences(Blocks(log, 0), kept, false);
    Regroup(Select(Blocks(log, 0), kept), 0, false);
  }

  // ---- What compaction preserves -----------------------------------------------------

  function ProtectedOf(log: seq<Message>): seq<Message> {
    if log == [] then []
    else if log[0].role == System || log[0].role == User then [log[0]] + ProtectedOf(log[1..])
    else ProtectedOf(log[1..])
  }

  lemma {:induction false} ProtectedOfConcat(s: seq<Message>, t: seq<Message>)
    ensures ProtectedOf(s + t) == ProtectedOf(s) + ProtectedOf(t)
  {
    if s == [] {
      assert s + t == t;
    } else {
      assert (s + t)[1..] == s[1..] + t;
      ProtectedOfConcat(s[1..], t);
    }
  }

  lemma {:induction false} ToolsAreNotProtected(s: seq<Message>)
    requires forall i | 0 <= i < |s| :: !Protected(s[i])
    ensures ProtectedOf(s) == []
  {
    if s != [] {
      ToolsAreNotProtected(s[1..]);
    }
  }

  lemma {:induction false} SelectKeepsProtected(blocks: seq<Block>, kept: set<nat>)
    requires forall b | b in blocks :: ValidBlock(b)
    ensures ProtectedOf(Flatten(Select(blocks, kept))) == ProtectedOf(Flatten(blocks))
  {
    if blocks != [] {
      SelectKeepsProtected(blocks[1..], kept);
      var b, rest := blocks[0], Select(blocks[1..], kept);
      assert b in blocks;
      ProtectedOfConcat(b.messages, Flatten(blocks[1..]));
      if IsUnit(b) && b.startIndex !in kept {
        ToolsAreNotProtected(b.messages);
      } else {
        FlattenCons(b, rest);
        ProtectedOfConcat(b.messages, Flatten(rest));
      }
    }
  }

  ghost predicate Subsequence(s: seq<Message>, t: seq<Message>) {
    s == [] || (t != [] && ((s[0] == t[0] && Subsequence(s[1..], t[1..])) || Subsequence(s, t[1..])))
  }

  lemma {:induction false} SubsequenceSkip(m: seq<Message>, s: seq<Message>, t: seq<Message>)
    requires Subsequence(s, t)
    ensures Subsequence(s, m + t)
  {
    if m == [] {
      assert m + t == t;
    } else {
      assert (m + t)[1..] == m[1..] + t;
      SubsequenceSkip(m[1..], s, t);
    }
  }

  lemma {:induction false} SubsequencePrepend(m: seq<Message>, s: seq<Message>, t: seq<Message>)
    requires Subsequence(s, t)
    ensures Subsequence(m + s, m + t)
  {
    if m == [] {
      assert m + t == t && m + s == s;
    } else {
      assert (m + t)[1..] == m[1..] + t && (m + s)[1..] == m[1..] + s;
      SubsequencePrepend(m[1..], s, t);
    }
  }

  lemma {:induction false} SelectIsSubsequence(blocks: seq<Block>, kept: set<nat>)
    ensures Subsequence(Flatten(Select(blocks, kept)), Flatten(blocks))
  {
    if blocks != [] {
      var b, rest := blocks[0], Select(blocks[1..], kept);
      SelectIsSubsequence(blocks[1..], kept);
      if IsUnit(b) && b.startIndex !in kept {
        SubsequenceSkip(b.messages, Flatten(rest), Flatten(blocks[1..]));
      } else {
        FlattenCons(b, rest);
        SubsequencePrepend(b.messages, Flatten(rest), Flatten(blocks[1..]));
      }
    }
  }

  /** Whatever units are evicted: order is kept, and no system or user message is lost. */
  lemma {:induction false} RebuildPreserves(log: seq<Message>, kept: set<nat>)
    ensures Subsequence(Rebuild(log, kept), log)
    ensures ProtectedOf(Rebuild(log, kept)) == ProtectedOf(log)
  {
    BlocksPartition(log, 0);
    BlocksAreValid(log, 0);
    SelectIsSubsequence(Blocks(log, 0), kept);
    SelectKeepsProtected(Blocks(log, 0), kept);
  }

  /** Every tool message directly follows an assistant or tool message. */
  ghost predicate NoOrphanTool(log: seq<Message>) {
    forall i | 0 <= i < |log| && log[i].role == Tool ::
      i > 0 && (log[i - 1].role == Assistant || log[i - 1].role == Tool)
  }

  ghost predicate NoToolHead(blocks: seq<Block>) {
    forall b | b in blocks :: ValidBlock(b) && b.messages[0].role != Tool
  }

  lemma {:induction false} NoOrphanMeansNoToolHead(log: seq<Message>, start: nat)
    requires NoOrphanTool(log)
    ensures NoToolHead(Blocks(log, start))
  {
    BlocksAreValid(log, start);
    if log != [] {
      var k := BlockLength(log);
      LeadingToolsAreTools(log[1..]);
      var tail := log[k..];
      forall i | 0 <= i < |tail| && tail[i].role == Tool
        ensures i > 0 && (tail[i - 1].role == Assistant || tail[i - 1].role == Tool)
      {
        assert tail[i] == log[k + i];
      }
      NoOrphanMeansNoToolHead(tail, start + k);
    }
  }

  lemma {:induction false} NoToolHeadMeansNoOrphan(blocks: seq<Block>)
    requires NoToolHead(blocks)
    ensures NoOrphanTool(Flatten(blocks))
    ensures Flatten(blocks) != [] ==> Flatten(blocks)[0].role != Tool
  {
    if blocks != [] {
      assert blocks[0] in blocks;
      var m, rest := blocks[0].messages, Flatten(blocks[1..]);
      NoToolHeadMeansNoOrphan(blocks[1..]);
      var log := m + rest;
      forall i | 0 <= i < |log| && log[i].role == Tool
        ensures i > 0 && (log[i - 1].role == Assistant || log[i - 1].role == Tool)
      {
        if i >= |m| {
          assert log[i] == rest[i - |m|];
        } else {
          assert log[i] == m[i];
        }
      }
    }
  }

  /** The provider's rule survives any eviction: a log without orphan tools stays one. */
  lemma NoOrphanSurvives(log: seq<Message>, kept: set<nat>)
    requires NoOrphanTool(log)
    ensures NoOrphanTool(Rebuild(log, kept))
  {
    NoOrphanMeansNoToolHead(log, 0);
    BlocksAreFenced(log, 0, false);
    SelectKeepsFences(Blocks(log, 0), kept, false);
    NoToolHeadMeansNoOrphan(Select(Blocks(log, 0), kept));
  }

  // ---- The compaction ------------------------------------------------------------------

  function ScoredUnits(log: seq<Message>, score: (seq<Message>, nat) -> real): seq<Scored> {
    Score(Units(Blocks(log, 0)), score)
  }

  /** The compacted log: everything but the units outside the top `k`. */
  function Compacted(log: seq<Message>, k: nat, score: (seq<Message>, nat) -> real): seq<Message> {
    Rebuild(log, TopUnits(ScoredUnits(log, score), k))
  }

  lemma ScoredAreChronological(log: seq<Message>, score: (seq<Message>, nat) -> real)
    ensures Chronological(ScoredUnits(log, score))
  {
    BlocksIncrease(log, 0);
    UnitsIncrease(Blocks(log, 0));
  }

  /** Which units survive: `min(k, units)` of them, and none is beaten by an evicted one. */
  lemma KeptUnitsAreTop(log: seq<Message>, k: nat, score: (seq<Message>, nat) -> real, kept: set<nat>)
    ensures IsTop(ScoredUnits(log, score), k, kept) <==> kept == TopUnits(ScoredUnits(log, score), k)
  {
    ScoredAreChronological(log, score);
    TopUnitsAreTop(ScoredUnits(log, score), k);
    if IsTop(ScoredUnits(log, score), k, kept) {
      TopIsUnique(ScoredUnits(log, score), k, kept, TopUnits(ScoredUnits(log, score), k));
    }
  }

  // ---- What the age in the score does ---------------------------------------------------

  ghost function LaterStarts(units: seq<Block>, start: nat): set<nat> {
    set u | u in units && u.startIndex > start :: u.startIndex
  }

  lemma {:induction false} CountLater(units: seq<Block>, k: nat)
    requires Increasing(units) && k < |units|
    ensures |LaterStarts(units, units[k].startIndex)| == |units| - 1 - k
  {
    var m := |units| - 1;
    var front, last, start := units[..m], units[m], units[k].startIndex;
    assert units == front + [last];
    if k < m {
      CountLater(front, k);
      assert LaterStarts(units, start) == LaterStarts(front, start) + {last.startIndex};
      assert last.startIndex !in LaterStarts(front, start);
    } else {
      assert LaterStarts(units, start) == {};
    }
  }

  /** The age a unit is scored with is the number of units that start after it: 0 for the most recent. */
  lemma {:induction false} AgeIsUnitsAfter(log: seq<Message>, score: (seq<Message>, nat) -> real, k: nat)
    requires k < |ScoredUnits(log, score)|
    ensures var x := ScoredUnits(log, score)[k];
      x.score == score(x.unit.messages, |LaterStarts(Units(Blocks(log, 0)), x.unit.startIndex)|)
  {
    BlocksIncrease(log, 0);
    UnitsIncrease(Blocks(log, 0));
    CountLater(Units(Blocks(log, 0)), k);
  }

  /** The last `k` units, or all of them. */
  function Newest(scored: seq<Scored>, k: nat): set<nat> {
    Starts(scored[|scored| - Min(k, |scored|)..])
  }

  ghost predicate Rising(scored: seq<Scored>) {
    forall i, j | 0 <= i < j < |scored| :: scored[i].score < scored[j].score
  }

  lemma StartsFrom(scored: seq<Scored>, from: nat, i: nat)
    requires Chronological(scored) && from <= |scored| && i < |scored|
    ensures scored[i].unit.startIndex in Starts(scored[from..]) <==> from <= i
  {
    if from <= i {
      assert scored[from..][i - from] == scored[i];
    }
  }

  lemma NewestAreTop(scored: seq<Scored>, k: nat)
    requires Chronological(scored) && Rising(scored)
    ensures IsTop(scored, k, Newest(scored, k))
  {
    var from := |scored| - Min(k, |scored|);
    assert forall x | x in scored[from..] :: x in scored;
    DistinctStarts(scored[from..]);
    forall a, b | a in scored && b in scored
      && a.unit.startIndex in Newest(scored, k) && b.unit.startIndex !in Newest(scored, k)
      ensures a.score > b.score
    {
      var i :| 0 <= i < |scored| && scored[i] == a;
      var j :| 0 <= j < |scored| && scored[j] == b;
      StartsFrom(scored, from, i);
      StartsFrom(scored, from, j);
    }
  }

  lemma KeptNewestOutscores(scored: seq<Scored>, i: nat, j: nat)
    requires Chronological(scored) && i < j < |scored|
    requires IsTop(scored, |scored| - j, Newest(scored, |scored| - j))
    ensures scored[i].score < scored[j].score
  {
    StartsFrom(scored, j, i);
    StartsFrom(scored, j, j);
    assert scored[i] in scored && scored[j] in scored;
  }

  lemma RisingKeepsNewest(log: seq<Message>, k: nat, score: (seq<Message>, nat) -> real)
    requires Rising(ScoredUnits(log, score))
    ensures TopUnits(ScoredUnits(log, score), k) == Newest(ScoredUnits(log, score), k)
  {
    var scored := ScoredUnits(log, score);
    ScoredAreChronological(log, score);
    NewestAreTop(scored, k);
    KeptUnitsAreTop(log, k, score, Newest(scored, k));
  }

  /** The newest units are kept for every `keepTopK` exactly when each unit outscores all older ones. */
  lemma NewestAreKeptExactly(log: seq<Message>, score: (seq<Message>, nat) -> real)
    ensures var scored := ScoredUnits(log, score);
      (forall k: nat :: TopUnits(scored, k) == Newest(scored, k)) <==> Rising(scored)
  {
    var scored := ScoredUnits(log, score);
    if Rising(scored) {
      forall k: nat
        ensures TopUnits(scored, k) == Newest(scored, k)
      {
        RisingKeepsNewest(log, k, score);
      }
    }
    if forall k: nat :: TopUnits(scored, k) == Newest(scored, k) {
      ScoredAreChronological(log, score);
      NewestKeptIsRising(scored);
    }
  }

  lemma NewestKeptIsRising(scored: seq<Scored>)
    requires Chronological(scored) && forall k: nat :: TopUnits(scored, k) == Newest(scored, k)
    ensures Rising(scored)
  {
    forall i, j | 0 <= i < j < |scored|
      ensures scored[i].score < scored[j].score
    {
      var k: nat := |scored| - j;
      TopUnitsAreTop(scored, k);
      KeptNewestOutscores(scored, i, j);
    }
  }

  /** If a younger unit always outscores an older one, whatever they hold, the newest units are kept. */
  lemma NewestAreKept(log: seq<Message>, k: nat, score: (seq<Message>, nat) -> real)
    requires forall m, m', s: nat, t: nat | s < t :: score(m, s) > score(m', t)
    ensures TopUnits(ScoredUnits(log, score), k) == Newest(ScoredUnits(log, score), k)
  {
    RisingKeepsNewest(log, k, score);
  }

  /** The shape of the source's score: a recency that falls with age, plus what the content is worth. */
  function DecayScore(recency: nat -> real, worth: seq<Message> -> real): (seq<Message>, nat) -> real {
    (m: seq<Message>, turnsFromEnd: nat) => recency(turnsFromEnd) + worth(m)
  }

  /**
   * An older unit survives a newer one only if its content is worth more, by at least the
   * recency between them.
   */
  lemma {:induction false} OlderSurvivesOnWorth(log: seq<Message>, k: nat, recency: nat -> real,
                                                worth: seq<Message> -> real, i: nat, j: nat)
    requires forall s: nat, t: nat | s < t :: recency(s) > recency(t)
    requires i < j < |Units(Blocks(log, 0))|
    ensures var units := Units(Blocks(log, 0));
      var kept := TopUnits(ScoredUnits(log, DecayScore(recency, worth)), k);
      units[i].startIndex in kept && units[j].startIndex !in kept ==>
        worth(units[i].messages) - worth(units[j].messages) >= recency(|units| - 1 - j) - recency(|units| - 1 - i) > 0.0
  {
    var n := |Units(Blocks(log, 0))|;
    var a := ScoredAt(log, recency, worth, i);
    var b := ScoredAt(log, recency, worth, j);
    assert recency(n - 1 - j) > recency(n - 1 - i);
    KeptBeats(log, k, DecayScore(recency, worth), a, b);
  }

  lemma {:induction false} ScoredAt(log: seq<Message>, recency: nat -> real, worth: seq<Message> -> real, i: nat)
    returns (x: Scored)
    requires i < |Units(Blocks(log, 0))|
    ensures x in ScoredUnits(log, DecayScore(recency, worth))
    ensures var units := Units(Blocks(log, 0));
      x == Scored(units[i], recency(|units| - 1 - i) + worth(units[i].messages))
  {
    x := ScoredUnits(log, DecayScore(recency, worth))[i];
  }

  lemma KeptBeats(log: seq<Message>, k: nat, score: (seq<Message>, nat) -> real, a: Scored, b: Scored)
    requires a in ScoredUnits(log, score) && b in ScoredUnits(log, score)
    ensures var kept := TopUnits(ScoredUnits(log, score), k);
      a.unit.startIndex in kept && b.unit.startIndex !in kept ==> a.score >= b.score
  {
    KeptUnitsAreTop(log, k, score, TopUnits(ScoredUnits(log, score), k));
  }

  lemma {:induction false} SelectAll(blocks: seq<Block>, kept: set<nat>)
    requires forall u | u in Units(blocks) :: u.startIndex in kept
    ensures Select(blocks, kept) == blocks
  {
    if blocks != [] {
      var rest := blocks[1..];
      assert Units(blocks) == if IsUnit(blocks[0]) then [blocks[0]] + Units(rest) else Units(rest);
      forall u | u in Units(rest)
        ensures u.startIndex in kept
      {
        assert u in Units(blocks);
      }
      SelectAll(rest, kept);
      assert IsUnit(blocks[0]) ==> blocks[0] in Units(blocks);
      assert blocks == [blocks[0]] + rest;
    }
  }

  /** With no more than `k` units the general rebuild returns the log, as the early return does. */
  lemma {:induction false} NothingToEvict(log: seq<Message>, k: nat, score: (seq<Message>, nat) -> real)
    requires |Units(Blocks(log, 0))| <= k
    ensures Compacted(log, k, score) == log
  {
    var scored := ScoredUnits(log, score);
    ScoredAreChronological(log, score);
    TopUnitsAreTop(scored, k);
    DistinctStarts(scored);
    SubsetOfSameSize(TopUnits(scored, k), Starts(scored));
    forall u | u in Units(Blocks(log, 0))
      ensures u.startIndex in TopUnits(scored, k)
    {
      var i :| 0 <= i < |scored| && Units(Blocks(log, 0))[i] == u;
      assert scored[i].unit == u;
    }
    SelectAll(Blocks(log, 0), TopUnits(scored, k));
    BlocksPartition(log, 0);
  }

  /** The kept units, out of all of them. */
  function KeptUnits(units: seq<Block>, kept: set<nat>): seq<Block> {
    if units == [] then []
    else if units[0].startIndex in kept then [units[0]] + KeptUnits(units[1..], kept)
    else KeptUnits(units[1..], kept)
  }

  lemma {:induction false} UnitsOfSelect(blocks: seq<Block>, kept: set<nat>)
    ensures Units(Select(blocks, kept)) == KeptUnits(Units(blocks), kept)
  {
    if blocks != [] {
      UnitsOfSelect(blocks[1..], kept);
      var rest := Select(blocks[1..], kept);
      assert ([blocks[0]] + rest)[1..] == rest;
      assert ([blocks[0]] + Units(blocks[1..]))[1..] == Units(blocks[1..]);
    }
  }

  lemma {:induction false} CountKept(scored: seq<Scored>, kept: set<nat>)
    requires Distinct(scored) && kept <= Starts(scored)
    ensures |KeptUnits(UnitBlocks(scored), kept)| == |kept|
  {
    if scored != [] {
      var p, rest := scored[0].unit.startIndex, scored[1..];
      StartsOfTail(scored);
      CountKept(rest, kept - {p});
      KeptOneMore(scored, kept);
    } else {
      assert Starts(scored) == {};
    }
  }

  lemma {:induction false} KeptOneMore(scored: seq<Scored>, kept: set<nat>)
    requires scored != [] && scored[0].unit.startIndex !in Starts(scored[1..])
    ensures var p, rest := scored[0].unit.startIndex, scored[1..];
      |KeptUnits(UnitBlocks(scored), kept)|
      == |KeptUnits(UnitBlocks(rest), kept - {p})| + (if p in kept then 1 else 0)
  {
    var p, rest := scored[0].unit.startIndex, scored[1..];
    forall i | 0 <= i < |rest|
      ensures UnitBlocks(rest)[i].startIndex != p
    {
      assert rest[i] in rest;
    }
    KeptWithout(UnitBlocks(rest), kept, p);
    assert UnitBlocks(scored)[1..] == UnitBlocks(rest);
  }

  lemma {:induction false} KeptWithout(units: seq<Block>, kept: set<nat>, p: nat)
    requires forall i | 0 <= i < |units| :: units[i].startIndex != p
    ensures KeptUnits(units, kept) == KeptUnits(units, kept - {p})
  {
    if units != [] {
      KeptWithout(units[1..], kept, p);
    }
  }

  lemma {:induction false} UnitsSameMessages(s: seq<Block>, t: seq<Block>)
    requires SameMessages(s, t)
    ensures |Units(s)| == |Units(t)|
  {
    if s != [] {
      UnitsSameMessages(s[1..], t[1..]);
    }
  }

  /** Exactly `min(k, units)` units are left, counted in the output itself. */
  lemma {:induction false} OutputUnitCount(log: seq<Message>, k: nat, score: (seq<Message>, nat) -> real)
    ensures |Units(Blocks(Compacted(log, k, score), 0))| == Min(k, |Units(Blocks(log, 0))|)
  {
    var scored, units := ScoredUnits(log, score), Units(Blocks(log, 0));
    var kept := TopUnits(scored, k);
    ScoredAreChronological(log, score);
    TopUnitsAreTop(scored, k);
    RegroupingYieldsKept(log, kept);
    UnitsSameMessages(Blocks(Rebuild(log, kept), 0), Select(Blocks(log, 0), kept));
    UnitsOfSelect(Blocks(log, 0), kept);
    assert UnitBlocks(scored) == units;
    CountKept(scored, kept);
  }

  /** Compacting twice is compacting once, even if the second pass scores differently. */
  lemma CompactionIsIdempotent(log: seq<Message>, k: nat,
                               score: (seq<Message>, nat) -> real, score': (seq<Message>, nat) -> real)
    ensures Compacted(Compacted(log, k, score), k, score') == Compacted(log, k, score)
  {
    OutputUnitCount(log, k, score);
    NothingToEvict(Compacted(log, k, score), k, score');
  }

  /**
   * The configuration documents `keepTopK` as the most tool *messages* to keep; it
   * bounds units, and one unit may hold any number of tool messages.
   */
  lemma KeepTopKCountsUnits(n: nat, score: (seq<Message>, nat) -> real)
    ensures var tools := seq(n, _ => Message(Tool, "", None));
      var log := [Message(Assistant, "", None)] + tools;
      Compacted(log, 1, score) == log
  {
    var tools := seq(n, _ => Message(Tool, "", None));
    var log := [Message(Assistant, "", None)] + tools;
    assert log[1..] == tools && tools + [] == tools;
    ToolsThenOther(tools, []);
    assert log[..BlockLength(log)] == log && log[BlockLength(log)..] == [];
    assert Blocks(log, 0) == [Block(log, 0)];
    NothingToEvict(log, 1, score);
  }

  function ToolCount(log: seq<Message>): nat {
    if log == [] then 0 else (if log[0].role == Tool then 1 else 0) + ToolCount(log[1..])
  }

  lemma {:induction false} ToolCountConcat(s: seq<Message>, t: seq<Message>)
    ensures ToolCount(s + t) == ToolCount(s) + ToolCount(t)
  {
    if s == [] {
      assert s + t == t;
    } else {
      assert (s + t)[1..] == s[1..] + t;
      ToolCountConcat(s[1..], t);
    }
  }

  ghost predicate OneToolPerUnit(blocks: seq<Block>) {
    forall b | b in blocks && IsUnit(b) :: ToolCount(b.messages) <= 1
  }

  /** With at most one tool message per unit there are no more tool messages than units. */
  lemma {:induction false} ToolsWithinUnits(blocks: seq<Block>)
    requires (forall b | b in blocks :: ValidBlock(b)) && OneToolPerUnit(blocks)
    ensures ToolCount(Flatten(blocks)) <= |Units(blocks)|
  {
    if blocks != [] {
      var b, rest := blocks[0], blocks[1..];
      assert b in blocks;
      ToolsWithinUnits(rest);
      ToolCountConcat(b.messages, Flatten(rest));
      if !IsUnit(b) {
        assert b.messages == [b.messages[0]] && b.messages[1..] == [];
      }
    }
  }

  lemma {:induction false} ToolsOfMember(blocks: seq<Block>, b: Block)
    requires b in blocks
    ensures ToolCount(Flatten(blocks)) >= ToolCount(b.messages)
  {
    ToolCountConcat(blocks[0].messages, Flatten(blocks[1..]));
    if b != blocks[0] {
      ToolsOfMember(blocks[1..], b);
    }
  }

  lemma {:induction false} UnitsAreBlocks(blocks: seq<Block>)
    ensures forall u :: u in Units(blocks) <==> u in blocks && IsUnit(u)
  {
    if blocks != [] {
      UnitsAreBlocks(blocks[1..]);
      assert blocks == [blocks[0]] + blocks[1..];
    }
  }

  lemma {:induction false} SelectHas(blocks: seq<Block>, kept: set<nat>, b: Block)
    ensures b in Select(blocks, kept) <==> b in blocks && (IsUnit(b) ==> b.startIndex in kept)
  {
    if blocks != [] {
      SelectHas(blocks[1..], kept, b);
      assert blocks == [blocks[0]] + blocks[1..];
    }
  }

  /** The documented cap, when every unit has at most one tool message. */
  lemma {:induction false} ToolsAreCapped(log: seq<Message>, k: nat, score: (seq<Message>, nat) -> real)
    requires OneToolPerUnit(Blocks(log, 0))
    ensures ToolCount(Compacted(log, k, score)) <= k
  {
    var blocks, kept := Blocks(log, 0), TopUnits(ScoredUnits(log, score), k);
    var selected := Select(blocks, kept);
    BlocksAreValid(log, 0);
    forall b | b in selected
      ensures b in blocks
    {
      SelectHas(blocks, kept, b);
    }
    ToolsWithinUnits(selected);
    OutputUnitCount(log, k, score);
    RegroupingYieldsKept(log, kept);
    UnitsSameMessages(Blocks(Rebuild(log, kept), 0), selected);
  }

  /** A score that singles out the messages of one unit. */
  function Favour(messages: seq<Message>): (seq<Message>, nat) -> real {
    (m, t) => if m == messages then 1.0 else 0.0
  }

  /** With that score one unit is kept, and it has those messages. */
  lemma {:induction false} FavouriteIsKept(log: seq<Message>, u: Block) returns (v: Block)
    requires u in Units(Blocks(log, 0))
    ensures v in Units(Blocks(log, 0)) && v.messages == u.messages
    ensures v.startIndex in TopUnits(ScoredUnits(log, Favour(u.messages)), 1)
  {
    var scored := ScoredUnits(log, Favour(u.messages));
    var kept := TopUnits(scored, 1);
    ScoredAreChronological(log, Favour(u.messages));
    TopUnitsAreTop(scored, 1);
    var i :| 0 <= i < |scored| && Units(Blocks(log, 0))[i] == u;
    assert scored[i].unit == u && scored[i].score == 1.0;
    assert |kept| == 1;
    var p :| p in kept;
    var a :| a in scored && a.unit.startIndex == p;
    if u.startIndex in kept {
      v := u;
    } else {
      assert a.score >= scored[i].score;
      v := a.unit;
    }
  }

  lemma {:induction false} CapFails(log: seq<Message>, u: Block)
    requires u in Units(Blocks(log, 0)) && ToolCount(u.messages) > 1
    ensures ToolCount(Compacted(log, 1, Favour(u.messages))) > 1
  {
    var kept := TopUnits(ScoredUnits(log, Favour(u.messages)), 1);
    var v := FavouriteIsKept(log, u);
    UnitsAreBlocks(Blocks(log, 0));
    SelectHas(Blocks(log, 0), kept, v);
    ToolsOfMember(Select(Blocks(log, 0), kept), v);
  }

  /** `keepTopK` caps the tool messages, for every value and score, exactly when each unit has at most one. */
  lemma {:induction false} KeepTopKCapsToolsExactly(log: seq<Message>)
    ensures (forall k: nat, score: (seq<Message>, nat) -> real :: ToolCount(Compacted(log, k, score)) <= k)
      <==> forall u | u in Units(Blocks(log, 0)) :: ToolCount(u.messages) <= 1
  {
    UnitsAreBlocks(Blocks(log, 0));
    if forall u | u in Units(Blocks(log, 0)) :: ToolCount(u.messages) <= 1 {
      forall k: nat, score: (seq<Message>, nat) -> real
        ensures ToolCount(Compacted(log, k, score)) <= k
      {
        ToolsAreCapped(log, k, score);
      }
    } else {
      var u :| u in Units(Blocks(log, 0)) && ToolCount(u.messages) > 1;
      CapFails(log, u);
      assert !(ToolCount(Compacted(log, 1, Favour(u.messages))) <= 1);
    }
  }

  // ---- The algorithm ---------------------------------------------------------------------

  function ProtectedBlocks(blocks: seq<Block>): seq<Block> {
    if blocks == [] then []
    else if IsUnit(blocks[0]) then ProtectedBlocks(blocks[1..])
    else [blocks[0]] + ProtectedBlocks(blocks[1..])
  }

  function UnitBlocks(units: seq<Scored>): seq<Block>
  {
    seq(|units|, k requires 0 <= k < |units| => units[k].unit)
  }

  function ByIndex(): (Block, Block) -> bool {
    (a: Block, b: Block) => a.startIndex <= b.startIndex
  }

  lemma {:induction false} SelectIsMerge(blocks: seq<Block>, kept: set<nat>)
    ensures multiset(Select(blocks, kept)) == multiset(ProtectedBlocks(blocks) + KeptUnits(Units(blocks), kept))
  {
    if blocks != [] {
      SelectIsMerge(blocks[1..], kept);
      assert ([blocks[0]] + Units(blocks[1..]))[1..] == Units(blocks[1..]);
    }
  }

  lemma {:induction false} SelectIncreases(blocks: seq<Block>, kept: set<nat>)
    requires Increasing(blocks)
    ensures Increasing(Select(blocks, kept))
    ensures forall b | b in Select(blocks, kept) :: b in blocks
  {
    if blocks != [] {
      SelectIncreases(blocks[1..], kept);
      assert blocks == [blocks[0]] + blocks[1..];
      forall b | b in Select(blocks[1..], kept)
        ensures blocks[0].startIndex < b.startIndex
      {
        var i :| 0 <= i < |blocks[1..]| && blocks[1..][i] == b;
        assert b == blocks[i + 1];
      }
    }
  }

  /** Sorting the protected blocks and the kept units by position restores log order. */
  lemma {:induction false} SortedItemsAreSelect(log: seq<Message>, kept: set<nat>)
    ensures var blocks := Blocks(log, 0);
      StableSort.Sort(ByIndex(), ProtectedBlocks(blocks) + KeptUnits(Units(blocks), kept)) == Select(blocks, kept)
  {
    var blocks := Blocks(log, 0);
    var items := ProtectedBlocks(blocks) + KeptUnits(Units(blocks), kept);
    var sel := Select(blocks, kept);
    SelectIsMerge(blocks, kept);
    BlocksIncrease(log, 0);
    SelectIncreases(blocks, kept);
    StableSort.SortIsPermutation(ByIndex(), items);
    StableSort.SortIsSorted(ByIndex(), items);
    forall x, y | x in sel && y in sel && ByIndex()(x, y) && ByIndex()(y, x)
      ensures x == y
    {
      var i :| 0 <= i < |sel| && sel[i] == x;
      var j :| 0 <= j < |sel| && sel[j] == y;
    }
    StableSort.SortedIsUnique(ByIndex(), sel, StableSort.Sort(ByIndex(), items));
  }

  lemma {:induction false} AppendBlock(done: seq<Block>, block: Block)
    requires block.messages != []
    ensures ProtectedBlocks(done + [block])
      == if Protected(block.messages[0]) then ProtectedBlocks(done) + [block] else ProtectedBlocks(done)
    ensures Units(done + [block]) == if Protected(block.messages[0]) then Units(done) else Units(done) + [block]
  {
    if done == [] {
      assert done + [block] == [block] && [block][1..] == [];
    } else {
      assert (done + [block])[1..] == done[1..] + [block];
      AppendBlock(done[1..], block);
    }
  }

  /** The block that starts at a position, read off the log: a unit ends before the first non-tool message. */
  ghost predicate IsBlockAt(log: seq<Message>, start: nat, messages: seq<Message>) {
    && 1 <= |messages| && start + |messages| <= |log| && messages == log[start..start + |messages|]
    && if messages[0].role == Assistant then
         && (forall k | 1 <= k < |messages| :: messages[k].role == Tool)
         && (start + |messages| < |log| ==> log[start + |messages|].role != Tool)
       else |messages| == 1
  }

  lemma {:induction false} FirstBlock(log: seq<Message>, start: nat, messages: seq<Message>)
    requires IsBlockAt(log, start, messages)
    ensures var next := start + |messages|;
      Blocks(log[start..], start) == [Block(messages, start)] + Blocks(log[next..], next)
  {
    assert log[start..] == messages + log[start + |messages|..];
    FirstBlockAgain(messages, log[start + |messages|..], start);
  }

  /** The blocks found before position i. */
  ghost predicate Tiled(log: seq<Message>, done: seq<Block>, i: nat) {
    if done == [] then i == 0
    else
      var last := done[|done| - 1];
      && IsBlockAt(log, last.startIndex, last.messages) && i == last.startIndex + |last.messages|
      && Tiled(log, done[..|done| - 1], last.startIndex)
  }

  /** The blocks from a position on. */
  ghost predicate IsRest(log: seq<Message>, i: nat, rest: seq<Block>) {
    i <= |log| && Blocks(log[i..], i) == rest
  }

  lemma PrependTile(log: seq<Message>, tile: Block, rest: seq<Block>)
    requires IsBlockAt(log, tile.startIndex, tile.messages)
    requires IsRest(log, tile.startIndex + |tile.messages|, rest)
    ensures IsRest(log, tile.startIndex, [tile] + rest)
  {
    FirstBlock(log, tile.startIndex, tile.messages);
  }

  /** Blocks that tile the log up to i, followed by those of the rest, are all of them. */
  lemma {:induction false} TilesAreBlocks(log: seq<Message>, done: seq<Block>, i: nat, rest: seq<Block>)
    requires Tiled(log, done, i) && IsRest(log, i, rest)
    ensures IsRest(log, 0, done + rest)
  {
    if done == [] {
      assert [] + rest == rest;
    } else {
      var front, last := done[..|done| - 1], done[|done| - 1];
      assert done + rest == front + ([last] + rest) by {
        assert done == front + [last];
      }
      PrependTile(log, last, rest);
      TilesAreBlocks(log, front, last.startIndex, [last] + rest);
    }
  }

  lemma {:induction false} AllTiles(log: seq<Message>, done: seq<Block>)
    requires Tiled(log, done, |log|)
    ensures done == Blocks(log, 0)
  {
    assert IsRest(log, |log|, []);
    TilesAreBlocks(log, done, |log|, []);
    assert log[0..] == log;
    assert done + [] == done;
  }

  /** The done blocks, filed by kind. */
  ghost predicate Grouped(log: seq<Message>, i: nat, done: seq<Block>, protected: seq<Block>, units: seq<Scored>) {
    Tiled(log, done, i) && protected == ProtectedBlocks(done) && UnitBlocks(units) == Units(done)
  }

  lemma {:induction false} GroupStep(log: seq<Message>, i: nat, messages: seq<Message>, done: seq<Block>,
                                     protected: seq<Block>, units: seq<Scored>)
    requires Grouped(log, i, done, protected, units) && IsBlockAt(log, i, messages)
    ensures var block, next := Block(messages, i), i + |messages|;
      if Protected(messages[0]) then Grouped(log, next, done + [block], protected + [block], units)
      else Grouped(log, next, done + [block], protected, PushUnit(units, messages, i))
  {
    assert (done + [Block(messages, i)])[..|done|] == done;
    AppendBlock(done, Block(messages, i));
    assert UnitBlocks(PushUnit(units, messages, i)) == UnitBlocks(units) + [Block(messages, i)];
  }

  /** An assistant message and the tool messages right after it. */
  method ReadUnit(log: seq<Message>, i: nat) returns (unit: seq<Message>)
    requires i < |log| && log[i].role == Assistant
    ensures IsBlockAt(log, i, unit) && unit[0] == log[i]
  {
    unit := [log[i]];
    var j := i + 1;
    while j < |log| && log[j].role == Tool
      invariant i < j <= |log| && unit == log[i..j]
      invariant forall k | 1 <= k < |unit| :: unit[k].role == Tool
    {
      unit := unit + [log[j]];
      j := j + 1;
    }
  }

  /** The grouping loop: protected messages and exchange units, with their positions. */
  method GroupLog(log: seq<Message>) returns (protected: seq<Block>, units: seq<Scored>)
    ensures protected == ProtectedBlocks(Blocks(log, 0)) && UnitBlocks(units) == Units(Blocks(log, 0))
  {
    protected, units := [], [];
    var i := 0;
    ghost var done: seq<Block> := [];
    while i < |log|
      invariant i <= |log| && Grouped(log, i, done, protected, units)
      decreases |log| - i
    {
      var msg := log[i];
      if msg.role == System || msg.role == User {
        GroupStep(log, i, [msg], done, protected, units);
        done, protected := done + [Block([msg], i)], protected + [Block([msg], i)];
        i := i + 1;
      } else if msg.role == Assistant {
        var unit := ReadUnit(log, i);
        GroupStep(log, i, unit, done, protected, units);
        done, units := done + [Block(unit, i)], PushUnit(units, unit, i);
        i := i + |unit|;
      } else {
        GroupStep(log, i, [msg], done, protected, units);
        done, units := done + [Block([msg], i)], PushUnit(units, [msg], i);
        i := i + 1;
      }
    }
    AllTiles(log, done);
  }

  function PushUnit(units: seq<Scored>, messages: seq<Message>, start: nat): seq<Scored> {
    units + [Scored(Block(messages, start), 0.0)]
  }

  /** The scoring loop writes each unit's score in place. */
  method ScoreUnits(units: seq<Scored>, score: (seq<Message>, nat) -> real) returns (scored: seq<Scored>)
    ensures scored == Score(UnitBlocks(units), score)
  {
    scored := units;
    var totalUnits := |units|;
    for k := 0 to totalUnits
      invariant |scored| == totalUnits
      invariant forall m | 0 <= m < k :: scored[m] == Score(UnitBlocks(units), score)[m]
      invariant forall m | k <= m < totalUnits :: scored[m] == units[m]
    {
      var turnsFromEnd := totalUnits - 1 - k;
      scored := scored[k := scored[k].(score := score(scored[k].unit.messages, turnsFromEnd))];
    }
  }

  method Concatenate(items: seq<Block>) returns (result: seq<Message>)
    ensures result == Flatten(items)
  {
    result := [];
    for n := 0 to |items|
      invariant result + Flatten(items[n..]) == Flatten(items)
    {
      assert items[n..][1..] == items[n + 1..];
      result := result + items[n].messages;
    }
  }

  method CompactToolLogDecay(log: seq<Message>, halfLifeTurns: real, keepTopK: int,
                             score: (seq<Message>, nat) -> real)
    returns (r: Result<seq<Message>, CompactionError>)
    ensures r == if halfLifeTurns <= 0.0 then Err(HalfLifeNotPositive)
                 else if keepTopK < 0 then Err(KeepTopKNegative)
                 else Ok(Compacted(log, keepTopK, score))
  {
    if halfLifeTurns <= 0.0 {
      return Err(HalfLifeNotPositive);
    }
    if keepTopK < 0 {
      return Err(KeepTopKNegative);
    }
    var protected, units := GroupLog(log);
    if |units| <= keepTopK {
      NothingToEvict(log, keepTopK, score);
      return Ok(log);
    }
    units := ScoreUnits(units, score);
    assert units == ScoredUnits(log, score);
    assert UnitBlocks(units) == Units(Blocks(log, 0));
    var sortedUnits := StableSort.Sort(ByScore(), units);
    StableSort.SortIsPermutation(ByScore(), units);
    var keptUnits := Starts(sortedUnits[..keepTopK]);
    var allItems := StableSort.Sort(ByIndex(), protected + KeptUnits(UnitBlocks(units), keptUnits));
    SortedItemsAreSelect(log, keptUnits);
    var result := Concatenate(allItems);
    return Ok(result);
  }
}
