/** Decimal numbers, as they are printed and as fmt.Sscanf reads them with %d. */
module Decimal {
  import opened Wrappers

  const LIMIT: int := 0x8000_0000_0000_0000

  predicate IsDigit(c: char)
  {
    '0' <= c <= '9'
  }

  function DigitOf(n: nat): (c: char)
    requires n < 10
    ensures IsDigit(c) && DigitValue(c) == n
  {
    ('0' as int + n) as char
  }

  function DigitValue(c: char): (n: nat)
    requires IsDigit(c)
    ensures n < 10
  {
    c as int - '0' as int
  }

  predicate AllDigits(s: string)
  {
    forall i :: 0 <= i < |s| ==> IsDigit(s[i])
  }

  function Print(n: nat): (s: string)
    ensures s != "" && AllDigits(s)
  {
    if n < 10 then [DigitOf(n)] else Print(n / 10) + [DigitOf(n % 10)]
  }

  function Value(s: string): nat
    requires AllDigits(s)
  {
    if s == "" then 0 else 10 * Value(s[..|s| - 1]) + DigitValue(s[|s| - 1])
  }

  lemma {:induction false} ValueOfPrint(n: nat)
    ensures Value(Print(n)) == n
  {
    if n >= 10 {
      ValueOfPrint(n / 10);
      assert Print(n)[..|Print(n)| - 1] == Print(n / 10);
    }
  }

  /** How many digits the text begins with. */
  function DigitPrefix(s: string): (k: nat)
    ensures k <= |s| && AllDigits(s[..k])
    ensures k < |s| ==> !IsDigit(s[k])
  {
    if s == "" || !IsDigit(s[0]) then 0 else 1 + DigitPrefix(s[1..])
  }

  lemma {:induction false} PrefixOfDigits(ds: string, rest: string)
    requires AllDigits(ds) && (rest == "" || !IsDigit(rest[0]))
    ensures DigitPrefix(ds + rest) == |ds|
  {
    if ds == "" {
      assert ds + rest == rest;
    } else {
      PrefixOfDigits(ds[1..], rest);
      assert (ds + rest)[1..] == ds[1..] + rest;
    }
  }

  datatype Scanned = Scanned(value: int, rest: string)

  /** %d: a sign or none, at least one digit, as many as there are, and a value that fits an int. */
  function Scan(s: string): Option<Scanned>
  {
    var signed := s != "" && (s[0] == '-' || s[0] == '+');
    var body := if signed then s[1..] else s;
    var k := DigitPrefix(body);
    if k == 0 then None
    else
      var size: int := Value(body[..k]);
      var value := if signed && s[0] == '-' then -size else size;
      if -LIMIT <= value < LIMIT then Some(Scanned(value, body[k..])) else None
  }

  lemma Digits(digits: string, rest: string)
    requires AllDigits(digits) && (rest == "" || !IsDigit(rest[0]))
    ensures DigitPrefix(digits + rest) == |digits|
    ensures (digits + rest)[..|digits|] == digits && (digits + rest)[|digits|..] == rest
  {
    PrefixOfDigits(digits, rest);
  }

  /** Digits are read, as many as there are, if the value fits 64 bits; without a digit or a sign nothing is. */
  lemma ScanDigits(digits: string, rest: string)
    requires AllDigits(digits) && (rest == "" || !IsDigit(rest[0]))
    requires digits == "" && rest != "" ==> rest[0] != '+' && rest[0] != '-'
    ensures Scan(digits + rest)
         == if digits != "" && Value(digits) < 0x8000_0000_0000_0000 then Some(Scanned(Value(digits), rest)) else None
  {
    Digits(digits, rest);
    var s := digits + rest;
    assert s != "" ==> s[0] == if digits != "" then digits[0] else rest[0];
  }

  /** So they are behind a sign, but not behind two. */
  lemma ScanSigned(sign: char, digits: string, rest: string)
    requires sign == '-' || sign == '+'
    requires AllDigits(digits) && (rest == "" || !IsDigit(rest[0]))
    ensures var value := if sign == '-' then -(Value(digits) as int) else Value(digits);
            Scan([sign] + (digits + rest))
            == if digits != "" && -0x8000_0000_0000_0000 <= value < 0x8000_0000_0000_0000
               then Some(Scanned(value, rest)) else None
  {
    var s, body := [sign] + (digits + rest), digits + rest;
    assert s[0] == sign && s[1..] == body;
    Digits(digits, rest);
    assert body[..DigitPrefix(body)] == digits && body[DigitPrefix(body)..] == rest;
  }

  lemma ScanPrinted(n: nat, rest: string)
    requires n < 0x8000_0000_0000_0000 && (rest == "" || !IsDigit(rest[0]))
    ensures Scan(Print(n) + rest) == Some(Scanned(n, rest))
  {
    var s, k := Print(n) + rest, |Print(n)|;
    assert IsDigit(s[0]);
    PrefixOfDigits(Print(n), rest);
    assert s[..k] == Print(n) && s[k..] == rest;
    ValueOfPrint(n);
  }
}

/** Counting the CPUs of a kernel CPU list (internal/loader/perf_event.go). */
module CpuList {
  import opened Wrappers
  import opened Decimal

  /** What the machine keeps of an integer in an int. */
  function Int64(x: int): (r: int)
    ensures -0x8000_0000_0000_0000 <= r < 0x8000_0000_0000_0000
    ensures -0x8000_0000_0000_0000 <= x < 0x8000_0000_0000_0000 ==> r == x
  {
    (x + LIMIT) % (2 * LIMIT) - LIMIT
  }

  lemma Int64Sum(a: int, b: int)
    ensures Int64(Int64(a) + Int64(b)) == Int64(a + b)
  {
    var m := 2 * LIMIT;
    var p, q := (a + LIMIT) / m, (b + LIMIT) / m;
    assert Int64(a) + Int64(b) == a + b - m * (p + q);
    assert (a + b + LIMIT) / m == (a + b - m * (p + q) + LIMIT) / m + (p + q);
  }

  predicate IsSeparator(c: char)
  {
    c == ',' || c == '\n'
  }

  function Flush(cur: string): seq<string>
  {
    if cur == "" then [] else [cur]
  }

  /** The items of a text, when cur has been read of the first one. */
  function Items(s: string, cur: string): seq<string>
  {
    if s == "" then Flush(cur)
    else if IsSeparator(s[0]) then Flush(cur) + Items(s[1..], "")
    else if s[0] == ' ' then Items(s[1..], cur)
    else Items(s[1..], cur + [s[0]])
  }

  method SplitTrim(s: string) returns (parts: seq<string>)
    ensures parts == Items(s, "")
  {
    parts := [];
    var cur := "";
    for i := 0 to |s|
      invariant Items(s, "") == parts + Items(s[i..], cur)
    {
      var c := s[i];
      assert s[i..][1..] == s[i + 1..];
      if c == ',' || c == '\n' {
        if cur != "" {
          parts := parts + [cur];
        }
        cur := "";
      } else if c != ' ' {
        cur := cur + [c];
      }
    }
    assert s[|s|..] == "";
    if cur != "" {
      parts := parts + [cur];
    }
  }

  /** The second number of a range. */
  function AfterDash(rest: string): Option<Scanned>
  {
    if rest != "" && rest[0] == '-' then Scan(rest[1..]) else None
  }

  /** What an item adds to the count: a range, else a single CPU, else nothing. */
  function Contribution(item: string): int
  {
    var lo := Scan(item);
    if lo.None? then 0
    else
      var hi := AfterDash(lo.value.rest);
      if hi.Some? then hi.value.value - lo.value.value + 1 else 1
  }

  /** How many numbers Sscanf reads with %d-%d, and which. */
  method ScanRange(item: string) returns (n: nat, lo: int, hi: int)
    ensures n <= 2 && (n >= 1 <==> Scan(item).Some?) && (n >= 1 ==> lo == Scan(item).value.value)
    ensures n == 2 <==> Scan(item).Some? && AfterDash(Scan(item).value.rest).Some?
    ensures n == 2 ==> hi == AfterDash(Scan(item).value.rest).value.value
  {
    n, lo, hi := 0, 0, 0;
    var first := Scan(item);
    if first.Some? {
      n, lo := 1, first.value.value;
      var rest := first.value.rest;
      if rest != "" && rest[0] == '-' {
        var second := Scan(rest[1..]);
        if second.Some? {
          n, hi := 2, second.value.value;
        }
      }
    }
  }

  /** The loop body of parseCPURange. */
  method AddItem(count: int, item: string, ghost total: int) returns (count': int)
    requires count == Int64(total)
    ensures count' == Int64(total + Contribution(item))
  {
    Int64Sum(total, Contribution(item));
    var n, lo, hi := ScanRange(item);
    if n == 2 {
      return Int64(count + Int64(hi - lo + 1));
    } else if Scan(item).Some? {
      return Int64(count + 1);
    }
    return count;
  }

  function Contributions(items: seq<string>): int
  {
    if items == [] then 0
    else Contributions(items[..|items| - 1]) + Contribution(items[|items| - 1])
  }

  lemma ContributionsNext(items: seq<string>, i: nat)
    requires i < |items|
    ensures Contributions(items[..i + 1]) == Contributions(items[..i]) + Contribution(items[i])
  {
    assert items[..i + 1][..i] == items[..i];
  }

  /** parseCPURange; numCpu is what runtime.NumCPU() returns. The count is kept in 64 bits. */
  method ParseCpuRange(s: string, numCpu: int) returns (r: int)
    ensures var count := Int64(Contributions(Items(s, ""))); r == if count == 0 then numCpu else count
  {
    var count := 0;
    var parts := SplitTrim(s);
    for i := 0 to |parts|
      invariant count == Int64(Contributions(parts[..i]))
    {
      ContributionsNext(parts, i);
      count := AddItem(count, parts[i], Contributions(parts[..i]));
    }
    assert parts[..|parts|] == parts;
    return if count == 0 then numCpu else count;
  }

  function Between(lo: nat, n: nat): (r: set<nat>)
    ensures |r| == n && forall c: nat :: c in r <==> lo <= c < lo + n
  {
    if n == 0 then {} else Between(lo, n - 1) + {lo + n - 1}
  }

  /** An item of a CPU list, as the kernel means it. */
  datatype Cpus = Single(cpu: nat) | Range(lo: nat, hi: nat)
  {
    predicate Valid()
    {
      if Single? then cpu < 0x8000_0000_0000_0000 else lo <= hi < 0x8000_0000_0000_0000
    }

    function Set(): set<nat>
      requires Valid()
    {
      if Single? then {cpu} else Between(lo, hi - lo + 1)
    }

    function Text(): (s: string)
      ensures s != "" && forall i :: 0 <= i < |s| ==> IsDigit(s[i]) || s[i] == '-'
    {
      if Single? then Print(cpu) else Print(lo) + "-" + Print(hi)
    }
  }

  function Text(list: seq<Cpus>): string
  {
    if list == [] then "\n"
    else if |list| == 1 then list[0].Text() + "\n"
    else list[0].Text() + "," + Text(list[1..])
  }

  predicate ValidList(list: seq<Cpus>)
  {
    forall i :: 0 <= i < |list| ==> list[i].Valid()
  }

  function Online(list: seq<Cpus>): set<nat>
    requires ValidList(list)
  {
    if list == [] then {} else Online(list[..|list| - 1]) + list[|list| - 1].Set()
  }

  predicate Disjoint(list: seq<Cpus>)
    requires ValidList(list)
  {
    forall i, j :: 0 <= i < j < |list| ==> list[i].Set() !! list[j].Set()
  }

  function Squeeze(s: string): string
  {
    if s == "" then "" else (if s[0] == ' ' then "" else [s[0]]) + Squeeze(s[1..])
  }

  /** Spaces do not matter, wherever they are. */
  lemma {:induction false} SpacesDoNotMatter(s: string, cur: string)
    ensures Items(Squeeze(s), cur) == Items(s, cur)
  {
    if s != "" {
      var t := Squeeze(s[1..]);
      if s[0] == ' ' {
        SpacesDoNotMatter(s[1..], cur);
        assert Squeeze(s) == t;
      } else {
        assert Squeeze(s) == [s[0]] + t && Squeeze(s)[1..] == t;
        SpacesDoNotMatter(s[1..], if IsSeparator(s[0]) then "" else cur + [s[0]]);
      }
    }
  }

  predicate IsWord(w: string)
  {
    forall i :: 0 <= i < |w| ==> IsDigit(w[i]) || w[i] == '-'
  }

  lemma {:induction false} ReadWord(w: string, rest: string, cur: string)
    requires IsWord(w)
    ensures Items(w + rest, cur) == Items(rest, cur + w)
  {
    if w == "" {
      assert w + rest == rest && cur + w == cur;
    } else {
      ReadWord(w[1..], rest, cur + [w[0]]);
      assert (w + rest)[1..] == w[1..] + rest;
      assert cur + [w[0]] + w[1..] == cur + w;
    }
  }

  function Texts(list: seq<Cpus>): seq<string>
  {
    seq(|list|, i requires 0 <= i < |list| => list[i].Text())
  }

  lemma FirstItem(w: string, sep: char, rest: string)
    requires IsWord(w) && w != "" && IsSeparator(sep)
    ensures Items(w + [sep] + rest, "") == [w] + Items(rest, "")
  {
    var tail := [sep] + rest;
    assert w + [sep] + rest == w + tail && tail[1..] == rest && "" + w == w;
    ReadWord(w, tail, "");
  }

  lemma NoItems()
    ensures Items("\n", "") == [] && Items("", "") == []
  {
    assert "\n"[1..] == "";
  }

  lemma OneItem(item: Cpus)
    ensures Items(item.Text() + "\n", "") == [item.Text()]
  {
    FirstItem(item.Text(), '\n', "");
    assert item.Text() + "\n" + "" == item.Text() + "\n";
    NoItems();
  }

  lemma MoreText(list: seq<Cpus>)
    requires |list| > 1
    ensures Text(list) == list[0].Text() + [','] + Text(list[1..])
  {
  }

  lemma MoreTexts(list: seq<Cpus>)
    requires |list| > 1
    ensures Texts(list) == [list[0].Text()] + Texts(list[1..])
  {
    assert forall i :: 0 < i < |list| ==> list[1..][i - 1] == list[i];
  }

  lemma {:induction false} ItemsOfText(list: seq<Cpus>)
    ensures Items(Text(list), "") == Texts(list)
  {
    if list == [] {
      NoItems();
    } else if |list| == 1 {
      OneItem(list[0]);
    } else {
      ItemsOfText(list[1..]);
      MoreText(list);
      MoreTexts(list);
      FirstItem(list[0].Text(), ',', Text(list[1..]));
    }
  }

  /** Two numbers joined by a dash add their difference and one, even if that is not positive. */
  lemma RangeAdds(lo: nat, hi: nat, rest: string)
    requires lo < 0x8000_0000_0000_0000 && hi < 0x8000_0000_0000_0000 && (rest == "" || !IsDigit(rest[0]))
    ensures Contribution(Print(lo) + ("-" + (Print(hi) + rest))) == hi - lo + 1
  {
    var second := "-" + (Print(hi) + rest);
    assert second[1..] == Print(hi) + rest;
    ScanPrinted(lo, second);
    ScanPrinted(hi, rest);
  }

  /** A number alone adds one, whatever other text follows it, and text that begins with none adds nothing. */
  lemma OtherTextAdds(cpu: nat, rest: string)
    requires cpu < 0x8000_0000_0000_0000
    requires rest == "" || (!IsDigit(rest[0]) && rest[0] != '-' && rest[0] != '+')
    ensures Contribution(Print(cpu) + rest) == 1 && Contribution(rest) == 0
  {
    ScanPrinted(cpu, rest);
    ScanDigits("", rest);
    assert "" + rest == rest;
  }

  lemma ContributionOfText(item: Cpus)
    requires item.Valid()
    ensures Contribution(item.Text()) == |item.Set()|
  {
    if item.Single? {
      OtherTextAdds(item.cpu, "");
      assert Print(item.cpu) + "" == Print(item.cpu);
    } else {
      RangeAdds(item.lo, item.hi, "");
      assert item.Text() == Print(item.lo) + ("-" + (Print(item.hi) + ""));
    }
  }

  lemma {:induction false} InOnline(list: seq<Cpus>, c: nat)
    requires ValidList(list)
    ensures c in Online(list) <==> exists i :: 0 <= i < |list| && c in list[i].Set()
  {
    if list != [] {
      InOnline(list[..|list| - 1], c);
    }
  }

  /** The last range of a disjoint list adds its own CPUs. */
  lemma OnlineNext(list: seq<Cpus>)
    requires ValidList(list) && Disjoint(list) && list != []
    ensures |Online(list)| == |Online(list[..|list| - 1])| + |list[|list| - 1].Set()|
  {
    var front, last := list[..|list| - 1], list[|list| - 1];
    forall c | c in Online(front)
      ensures c !in last.Set()
    {
      InOnline(front, c);
    }
  }

  lemma {:induction false} ContributionsCount(list: seq<Cpus>)
    requires ValidList(list) && Disjoint(list)
    ensures Contributions(Texts(list)) == |Online(list)|
  {
    if list != [] {
      var front, last := list[..|list| - 1], list[|list| - 1];
      ContributionsCount(front);
      OnlineNext(list);
      assert Texts(list)[..|list| - 1] == Texts(front);
      ContributionOfText(last);
    }
  }

  /**
   Parsing inverts printing: whatever list of disjoint ranges is printed, and wherever spaces are
   added to the text, the items found count exactly the CPUs of the list.
   */
  lemma {:induction false} ParsingInvertsPrinting(list: seq<Cpus>, s: string)
    requires ValidList(list) && Disjoint(list)
    requires Squeeze(s) == Text(list)
    ensures Contributions(Items(s, "")) == |Online(list)|
  {
    SpacesDoNotMatter(s, "");
    ItemsOfText(list);
    ContributionsCount(list);
  }

  /** onlineCPUs: read says what the file holds, if it can be read. */
  method OnlineCpus(read: Option<string>, numCpu: int) returns (n: int)
    ensures read.None? ==> n == numCpu
    ensures forall list :: PrintsTo(list, read) ==> n == |Online(list)|
  {
    if read.None? {
      return numCpu;
    }
    n := ParseCpuRange(read.value, numCpu);
    forall list | PrintsTo(list, read)
      ensures n == |Online(list)|
    {
      ParsingInvertsPrinting(list, read.value);
      SomeOnline(list);
    }
  }

  /** The file holds the list, which denotes at least one CPU and no more than an int can count. */
  ghost predicate PrintsTo(list: seq<Cpus>, read: Option<string>)
  {
    && read.Some? && Squeeze(read.value) == Text(list)
    && ValidList(list) && list != [] && Disjoint(list)
    && |Online(list)| < 0x8000_0000_0000_0000
  }

  lemma SomeOnline(list: seq<Cpus>)
    requires ValidList(list) && list != []
    ensures |Online(list)| > 0
  {
    var last := list[|list| - 1];
    assert (if last.Single? then last.cpu else last.lo) in Online(list);
  }

  /** The CPUs that AttachPerfEventAllCPUs opens when it counts n. */
  function Opened(n: nat): set<nat>
  {
    Between(0, n)
  }

  lemma SubsetOfSameSize(a: set<nat>, b: set<nat>)
    requires a <= b && |a| == |b|
    ensures a == b
  {
    if a != b {
      var x :| x in b && x !in a;
      assert a <= b - {x};
      SubsetNoLarger(a, b - {x});
    }
  }

  lemma {:induction false} SubsetNoLarger(a: set<nat>, b: set<nat>)
    requires a <= b
    ensures |a| <= |b|
  {
    if a != {} {
      var x :| x in a;
      SubsetNoLarger(a - {x}, b - {x});
    }
  }

  /**
   The sampler opens CPUs 0 to n - 1 for n online CPUs. These are the online ones if and only if
   no online CPU has a number of n or more.
   */
  lemma OpensTheOnlineCpus(online: set<nat>)
    ensures Opened(|online|) == online <==> forall c :: c in online ==> c < |online|
  {
    if forall c :: c in online ==> c < |online| {
      SubsetOfSameSize(online, Opened(|online|));
    }
  }

  /** The CPUs 0 to n without m, as the kernel lists them. */
  function AllBut(m: nat, n: nat): seq<Cpus>
    requires m < n
  {
    (if m == 0 then [] else [Range(0, m - 1)]) + [Range(m + 1, n)]
  }

  lemma OneRange(a: Cpus)
    requires a.Valid()
    ensures Online([a]) == a.Set()
  {
    assert [a][..0] == [];
  }

  lemma TwoRanges(a: Cpus, b: Cpus)
    requires a.Valid() && b.Valid() && a.Set() !! b.Set()
    ensures Disjoint([a, b]) && Online([a, b]) == a.Set() + b.Set()
    ensures |Online([a, b])| == |a.Set()| + |b.Set()|
  {
    assert [a, b][..1] == [a];
    OneRange(a);
  }

  lemma OnlineAbove(n: nat)
    requires 0 < n < 0x8000_0000_0000_0000
    ensures ValidList([Range(1, n)]) && Disjoint([Range(1, n)])
    ensures |Online([Range(1, n)])| == n && forall c: nat :: c in Online([Range(1, n)]) <==> 0 < c <= n
  {
    OneRange(Range(1, n));
  }

  lemma OnlineAround(m: nat, n: nat)
    requires 0 < m < n < 0x8000_0000_0000_0000
    ensures var list := [Range(0, m - 1), Range(m + 1, n)];
            && ValidList(list) && Disjoint(list) && |Online(list)| == n
            && forall c: nat :: c in Online(list) <==> c <= n && c != m
  {
    TwoRanges(Range(0, m - 1), Range(m + 1, n));
  }

  lemma OnlineAllBut(m: nat, n: nat)
    requires m < n < 0x8000_0000_0000_0000
    ensures ValidList(AllBut(m, n)) && Disjoint(AllBut(m, n))
    ensures forall c: nat :: c in Online(AllBut(m, n)) <==> c <= n && c != m
    ensures |Online(AllBut(m, n))| == n
  {
    if m == 0 {
      OnlineAbove(n);
      assert AllBut(m, n) == [Range(1, n)];
    } else {
      OnlineAround(m, n);
      assert AllBut(m, n) == [Range(0, m - 1), Range(m + 1, n)];
    }
  }

  /** With any one CPU but the last offline, the sampler tries that one and leaves the last out. */
  lemma {:induction false} OfflineCpuMisleads(m: nat, n: nat)
    requires m < n < 0x8000_0000_0000_0000
    ensures ValidList(AllBut(m, n)) && Disjoint(AllBut(m, n))
    ensures var online := Online(AllBut(m, n));
            m in Opened(|online|) && m !in online && n !in Opened(|online|) && n in online
  {
    OnlineAllBut(m, n);
  }
}
