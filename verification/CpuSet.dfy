/** The cpuset builder (runtime/cpuset/cpuset_builder.go) against the "List format" of cpuset(7), which the kernel
    reads. */
module CpuSet {
  import opened Outcomes
  import opened Text

  datatype Range = Range(min: int, max: int) {
    function ToString(): string {
      Itoa(min) + "-" + Itoa(max)
    }
  }

  datatype CPUSet = CPUSet(cpus: string, mems: string)

  datatype Builder = Builder(cpus: seq<int>, cpuRanges: seq<Range>, mems: seq<int>, memRanges: seq<Range>) {
    function AddCPU(cpu: int): Builder {
      this.(cpus := cpus + [cpu])
    }

    function AddCPURange(minimum: int, maximum: int): Builder {
      this.(cpuRanges := cpuRanges + [Range(minimum, maximum)])
    }

    function AddMem(mem: int): Builder {
      this.(mems := mems + [mem])
    }

    function AddMemRange(minimum: int, maximum: int): Builder {
      this.(memRanges := memRanges + [Range(minimum, maximum)])
    }

    method Build() returns (built: CPUSet)
      ensures built == CPUSet(Listing(cpus, cpuRanges), Listing(mems, memRanges))
    {
      var c := Stringify(cpus, cpuRanges);
      var m := Stringify(mems, memRanges);
      return CPUSet(c, m);
    }
  }

  const EMPTY := Builder([], [], [], [])

  function Words(elems: seq<int>, ranges: seq<Range>): (strs: seq<string>)
    ensures |strs| == |elems| + |ranges|
    ensures forall i :: 0 <= i < |elems| ==> strs[i] == Itoa(elems[i])
    ensures forall i :: 0 <= i < |ranges| ==> strs[|elems| + i] == ranges[i].ToString()
  {
    seq(|elems|, i requires 0 <= i < |elems| => Itoa(elems[i])) + seq(|ranges|,
        i requires 0 <= i < |ranges| => ranges[i].ToString())
  }

  function Listing(elems: seq<int>, ranges: seq<Range>): string {
    Join(Words(elems, ranges), ',')
  }

  method Stringify(elems: seq<int>, ranges: seq<Range>) returns (s: string)
    ensures s == Listing(elems, ranges)
  {
    hide Join, Itoa;
    var strs: seq<string> := [];
    for i := 0 to |elems|
      invariant strs == Words(elems, ranges)[..i]
    {
      strs := strs + [Itoa(elems[i])];
    }
    for i := 0 to |ranges|
      invariant strs == Words(elems, ranges)[..|elems| + i]
    {
      strs := strs + [ranges[i].ToString()];
    }
    assert Words(elems, ranges)[..|elems| + |ranges|] == Words(elems, ranges);
    s := Join(strs, ',');
  }

  // ----- the reader -----

  /** An entry of a list: a number or a range of numbers. */
  datatype Item = Single(n: nat) | Span(a: nat, b: nat)

  function ParseItem(s: string): Option<Item> {
    var i := IndexOf(s, '-');
    if i == |s| then
      if IsNumeral(s) then Some(Single(NumeralValue(s))) else None
    else if IsNumeral(s[..i]) && IsNumeral(s[i + 1..]) then
      // a range that ends before it starts is refused
      var a, b := NumeralValue(s[..i]), NumeralValue(s[i + 1..]);
      if a <= b then Some(Span(a, b)) else None
    else None
  }

  function ParseItems(words: seq<string>): Option<seq<Item>> {
    if words == [] then Some([])
    else match (ParseItem(words[0]), ParseItems(words[1..]))
      case (Some(item), Some(items)) => Some([item] + items)
      case _ => None
  }

  function ParseList(s: string): Option<seq<Item>> {
    if s == "" then Some([]) else ParseItems(Split(s, ','))
  }

  predicate Contains(item: Item, n: nat) {
    match item
    case Single(m) => n == m
    case Span(a, b) => a <= n <= b
  }

  // ----- the round trip -----

  /** No number is negative and no range ends before it starts. */
  predicate Proper(elems: seq<int>, ranges: seq<Range>) {
    && (forall i :: 0 <= i < |elems| ==> elems[i] >= 0)
    && (forall i :: 0 <= i < |ranges| ==> 0 <= ranges[i].min <= ranges[i].max)
  }

  /** What was added: the single numbers, then the ranges. */
  function Items(elems: seq<int>, ranges: seq<Range>): (items: seq<Item>)
    requires Proper(elems, ranges)
    ensures |items| == |elems| + |ranges|
    ensures forall i :: 0 <= i < |elems| ==> items[i] == Single(elems[i])
    ensures forall i :: 0 <= i < |ranges| ==> items[|elems| + i] == Span(ranges[i].min, ranges[i].max)
  {
    seq(|elems|, i requires 0 <= i < |elems| => Single(elems[i]))
    + seq(|ranges|, i requires 0 <= i < |ranges| => Span(ranges[i].min, ranges[i].max))
  }

  lemma NumeralHasNo(s: string, c: char)
    requires (forall i :: 0 <= i < |s| ==> IsDigit(s[i])) && !IsDigit(c)
    ensures c !in s
  {
  }

  lemma ParseNumber(n: int)
    ensures ParseItem(Itoa(n)) == if n >= 0 then Some(Single(n)) else None
    ensures ',' !in Itoa(n) && Itoa(n) != ""
  {
    var digits := Decimal(if n < 0 then -n else n);
    NumeralHasNo(digits, '-');
    NumeralHasNo(digits, ',');
    if n >= 0 {
      DecimalRoundTrip(n);
      IndexOfPrefix(digits, '-', "");
      assert digits + "" == digits;
    } else {
      assert Itoa(n)[0] == '-';
      IndexOfPrefix("", '-', Itoa(n));
      assert "" + Itoa(n) == Itoa(n);
      assert Itoa(n)[..0] == "";
    }
  }

  /** The reader splits at the first dash. */
  lemma ParseDash(lo: string, hi: string)
    requires '-' !in lo
    ensures ParseItem(lo + "-" + hi) ==
              if IsNumeral(lo) && IsNumeral(hi) && NumeralValue(lo) <= NumeralValue(hi)
              then Some(Span(NumeralValue(lo), NumeralValue(hi))) else None
  {
    var s := lo + "-" + hi;
    assert s == lo + ("-" + hi);
    IndexOfPrefix(lo, '-', "-" + hi);
    assert s[..|lo|] == lo && s[|lo| + 1..] == hi;
  }

  lemma ParseRange(r: Range)
    ensures ParseItem(r.ToString()) == if 0 <= r.min <= r.max then Some(Span(r.min, r.max)) else None
    ensures ',' !in r.ToString() && r.ToString() != ""
  {
    hide ParseItem, Decimal, NumeralValue;
    var lo, hi := Itoa(r.min), Itoa(r.max);
    ParseNumber(r.min);
    ParseNumber(r.max);
    if r.min >= 0 {
      NumeralHasNo(lo, '-');
      ParseDash(lo, hi);
      DecimalRoundTrip(r.min);
      if r.max >= 0 {
        DecimalRoundTrip(r.max);
      } else {
        assert hi[0] == '-' && !IsDigit(hi[0]);
      }
    } else {
      ParseDash("", lo[1..] + "-" + hi);
      assert r.ToString() == "" + "-" + (lo[1..] + "-" + hi);
    }
  }

  lemma {:induction false} ParseWords(words: seq<string>, items: seq<Item>)
    requires |items| == |words| && forall i :: 0 <= i < |words| ==> ParseItem(words[i]) == Some(items[i])
    ensures ParseItems(words) == Some(items)
    decreases |words|
  {
    if words != [] {
      ParseWords(words[1..], items[1..]);
      assert items == [items[0]] + items[1..];
    }
  }

  lemma {:induction false} ParseFails(words: seq<string>, i: nat)
    requires i < |words| && ParseItem(words[i]) == None
    ensures ParseItems(words) == None
    decreases |words|
  {
    if i > 0 {
      ParseFails(words[1..], i - 1);
    }
  }

  lemma {:induction false} JoinNonEmpty(words: seq<string>)
    requires words != [] && words[0] != ""
    ensures Join(words, ',') != ""
  {
  }

  /** The kernel reads the printed list exactly when no number is negative and no range is reversed, and then it reads
      what was added: the numbers, followed by the ranges, each in the order they were added. */
  lemma ListingRoundTrip(elems: seq<int>, ranges: seq<Range>)
    ensures ParseList(Listing(elems, ranges)) == if Proper(elems, ranges) then Some(Items(elems, ranges)) else None
  {
    var words := Words(elems, ranges);
    forall i | 0 <= i < |words| ensures ',' !in words[i] && words[i] != "" {
      if i < |elems| { ParseNumber(elems[i]); } else { ParseRange(ranges[i - |elems|]); }
    }
    if words != [] {
      JoinNonEmpty(words);
      SplitJoin(words, ',');
      ParseListing(elems, ranges);
    }
  }

  lemma ParseListing(elems: seq<int>, ranges: seq<Range>)
    ensures ParseItems(Words(elems, ranges)) == if Proper(elems, ranges) then Some(Items(elems, ranges)) else None
  {
    hide ParseItem, Itoa, Decimal, IsNumeral;
    var words := Words(elems, ranges);
    if Proper(elems, ranges) {
      var items := Items(elems, ranges);
      forall i | 0 <= i < |words| ensures ParseItem(words[i]) == Some(items[i]) {
        if i < |elems| { ParseNumber(elems[i]); } else { ParseRange(ranges[i - |elems|]); }
      }
      ParseWords(words, items);
    } else if !(forall i :: 0 <= i < |elems| ==> elems[i] >= 0) {
      var i :| 0 <= i < |elems| && elems[i] < 0;
      ParseNumber(elems[i]);
      ParseFails(words, i);
    } else {
      var i :| 0 <= i < |ranges| && !(0 <= ranges[i].min <= ranges[i].max);
      ParseRange(ranges[i]);
      ParseFails(words, |elems| + i);
    }
  }

  // ----- chains of calls -----

  datatype Kind = Cpus | Mems

  datatype Call = Add(kind: Kind, n: int) | AddRange(kind: Kind, r: Range)

  function Step(b: Builder, call: Call): Builder {
    match call
    case Add(Cpus, n) => b.AddCPU(n)
    case AddRange(Cpus, r) => b.AddCPURange(r.min, r.max)
    case Add(Mems, n) => b.AddMem(n)
    case AddRange(Mems, r) => b.AddMemRange(r.min, r.max)
  }

  function Chain(calls: seq<Call>): Builder {
    if calls == [] then EMPTY else Step(Chain(calls[..|calls| - 1]), calls[|calls| - 1])
  }

  function Elems(b: Builder, kind: Kind): seq<int> {
    if kind == Cpus then b.cpus else b.mems
  }

  function Ranges(b: Builder, kind: Kind): seq<Range> {
    if kind == Cpus then b.cpuRanges else b.memRanges
  }

  /** What one call allows: the number it adds, or the numbers of the range it adds. */
  predicate Allows(call: Call, kind: Kind, n: nat) {
    call.kind == kind && if call.Add? then call.n == n else call.r.min <= n <= call.r.max
  }

  predicate Readable(call: Call, kind: Kind) {
    call.kind == kind ==> if call.Add? then call.n >= 0 else 0 <= call.r.min <= call.r.max
  }

  ghost predicate Holds(elems: seq<int>, ranges: seq<Range>, n: nat) {
    n in elems || exists i :: 0 <= i < |ranges| && ranges[i].min <= n <= ranges[i].max
  }

  lemma HoldsElem(elems: seq<int>, ranges: seq<Range>, e: int, n: nat)
    ensures Holds(elems + [e], ranges, n) <==> Holds(elems, ranges, n) || e == n
    ensures Proper(elems + [e], ranges) <==> Proper(elems, ranges) && e >= 0
  {
    var longer := elems + [e];
    assert longer[|elems|] == e;
    assert forall i :: 0 <= i < |elems| ==> longer[i] == elems[i];
  }

  lemma HoldsRange(elems: seq<int>, ranges: seq<Range>, r: Range, n: nat)
    ensures Holds(elems, ranges + [r], n) <==> Holds(elems, ranges, n) || r.min <= n <= r.max
    ensures Proper(elems, ranges + [r]) <==> Proper(elems, ranges) && 0 <= r.min <= r.max
  {
    var longer := ranges + [r];
    assert longer[|ranges|] == r;
    assert forall i :: 0 <= i < |ranges| ==> longer[i] == ranges[i];
  }

  lemma StepHolds(b: Builder, call: Call, kind: Kind, n: nat)
    ensures var b' := Step(b, call);
            && (Holds(Elems(b', kind), Ranges(b', kind), n)
                <==> Holds(Elems(b, kind), Ranges(b, kind), n) || Allows(call, kind, n))
            && (Proper(Elems(b', kind), Ranges(b', kind))
                <==> Proper(Elems(b, kind), Ranges(b, kind)) && Readable(call, kind))
  {
    hide Holds, Proper;
    if call.kind == kind {
      if call.Add? {
        HoldsElem(Elems(b, kind), Ranges(b, kind), call.n, n);
      } else {
        HoldsRange(Elems(b, kind), Ranges(b, kind), call.r, n);
      }
    }
  }

  ghost predicate SomeAllows(calls: seq<Call>, kind: Kind, n: nat) {
    exists i :: 0 <= i < |calls| && Allows(calls[i], kind, n)
  }

  ghost predicate AllReadable(calls: seq<Call>, kind: Kind) {
    forall i :: 0 <= i < |calls| ==> Readable(calls[i], kind)
  }

  lemma LastCall(calls: seq<Call>, kind: Kind, n: nat)
    requires calls != []
    ensures var init, last := calls[..|calls| - 1], calls[|calls| - 1];
            && (SomeAllows(calls, kind, n) <==> SomeAllows(init, kind, n) || Allows(last, kind, n))
            && (AllReadable(calls, kind) <==> AllReadable(init, kind) && Readable(last, kind))
  {
  }

  lemma {:induction false} ChainHolds(calls: seq<Call>, kind: Kind, n: nat)
    ensures var b := Chain(calls);
            && (Holds(Elems(b, kind), Ranges(b, kind), n) <==> SomeAllows(calls, kind, n))
            && (Proper(Elems(b, kind), Ranges(b, kind)) <==> AllReadable(calls, kind))
    decreases |calls|
  {
    if calls != [] {
      hide Holds, Proper, Step, Allows, Readable, Elems, Ranges, SomeAllows, AllReadable;
      var init, last := calls[..|calls| - 1], calls[|calls| - 1];
      ChainHolds(init, kind, n);
      StepHolds(Chain(init), last, kind, n);
      LastCall(calls, kind, n);
    }
  }

  // The numbers and the ranges that the calls added to a list, in the order of the calls.

  function AddedElems(calls: seq<Call>, kind: Kind): seq<int> {
    if calls == [] then []
    else
      var last := calls[|calls| - 1];
      AddedElems(calls[..|calls| - 1], kind) + if last.kind == kind && last.Add? then [last.n] else []
  }

  function AddedRanges(calls: seq<Call>, kind: Kind): seq<Range> {
    if calls == [] then []
    else
      var last := calls[|calls| - 1];
      AddedRanges(calls[..|calls| - 1], kind) + if last.kind == kind && last.AddRange? then [last.r] else []
  }

  lemma {:induction false} ChainAdds(calls: seq<Call>, kind: Kind)
    ensures Elems(Chain(calls), kind) == AddedElems(calls, kind)
        && Ranges(Chain(calls), kind) == AddedRanges(calls, kind)
    decreases |calls|
  {
    if calls != [] {
      ChainAdds(calls[..|calls| - 1], kind);
    }
  }

  /** For every chain of builder calls and both lists: the printed list reads back as the numbers the calls added to it
      followed by the ranges, in the order of the calls, if none of them is negative or reversed, and not at all
      otherwise. */
  lemma PrintedInOrder(calls: seq<Call>, kind: Kind)
    ensures var b := Chain(calls);
            var elems, ranges := AddedElems(calls, kind), AddedRanges(calls, kind);
            && (AllReadable(calls, kind) <==> Proper(elems, ranges))
            && ParseList(Listing(Elems(b, kind), Ranges(b, kind)))
               == if AllReadable(calls, kind) then Some(Items(elems, ranges)) else None
  {
    hide Chain, Elems, Ranges, ParseList, Listing, AllReadable, Proper, AddedElems, AddedRanges;
    ChainAdds(calls, kind);
    ChainHolds(calls, kind, 0);
    ListingRoundTrip(AddedElems(calls, kind), AddedRanges(calls, kind));
  }

  /** For every chain of builder calls and both lists: the kernel can read the printed list if and only if no call for
      that list gave a negative number or a reversed range, and what it reads contains exactly the numbers those calls
      allow. */
  lemma PrintedSetIsUnion(calls: seq<Call>, kind: Kind, n: nat)
    ensures var b := Chain(calls);
            var read := ParseList(Listing(Elems(b, kind), Ranges(b, kind)));
            && (read.Some? <==> AllReadable(calls, kind))
            && (read.Some? ==> (SomeContains(read.value, n) <==> SomeAllows(calls, kind, n)))
  {
    hide Chain, Elems, Ranges, ParseList, Listing, SomeAllows, AllReadable, Proper, Holds, SomeContains;
    var elems, ranges := Elems(Chain(calls), kind), Ranges(Chain(calls), kind);
    ChainHolds(calls, kind, n);
    ListingRoundTrip(elems, ranges);
    if Proper(elems, ranges) {
      ItemsContain(elems, ranges, n);
    }
  }

  ghost predicate SomeContains(items: seq<Item>, n: nat) {
    exists i :: 0 <= i < |items| && Contains(items[i], n)
  }

  lemma ItemsContain(elems: seq<int>, ranges: seq<Range>, n: nat)
    requires Proper(elems, ranges)
    ensures SomeContains(Items(elems, ranges), n) <==> Holds(elems, ranges, n)
  {
  }
}
