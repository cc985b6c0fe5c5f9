/** Worker lines of the P2Pool stratum API
    (services/manager/pkg/p2poolclient/types.go, services/mocknode/main.go). */
module WorkerCsv {
  import opened Prelude

  datatype Worker = Worker(connection: string, hashrate: uint64, totalHashes: uint64,
                           bestDifficulty: uint64, walletPrefix: string)

  // ----- Splitting and joining on commas -----

  predicate CommaFree(s: string) {
    forall i | 0 <= i < |s| :: s[i] != ','
  }

  /** The same parts, the last one longer. */
  function Lengthen(parts: seq<string>, more: string): (r: seq<string>)
    requires parts != []
    ensures |r| == |parts|
  {
    parts[..|parts| - 1] + [parts[|parts| - 1] + more]
  }

  /** What one more character does to the parts. */
  function Grow(parts: seq<string>, c: char): (r: seq<string>)
    requires parts != []
    ensures r != []
  {
    if c == ',' then parts + [""] else Lengthen(parts, [c])
  }

  function Split(s: string): (parts: seq<string>)
    ensures parts != []
  {
    if s == "" then [""] else Grow(Split(s[..|s| - 1]), s[|s| - 1])
  }

  function Join(parts: seq<string>): string
    requires parts != []
  {
    if |parts| == 1 then parts[0] else Join(parts[..|parts| - 1]) + "," + parts[|parts| - 1]
  }

  /** The parts so far, and where the current one starts. */
  method SplitCSV(s: string) returns (parts: seq<string>)
    ensures parts == Split(s)
  {
    parts := [];
    var start := 0;
    for i := 0 to |s|
      invariant 0 <= start <= i
      invariant parts + [s[start..i]] == Split(s[..i])
    {
      SplitFurther(s, i);
      SliceFurther(s, start, i);
      GrowLast(parts, s[start..i], s[i]);
      if s[i] == ',' {
        parts := parts + [s[start..i]];
        start := i + 1;
      }
    }
    SliceToEnd(s, start);
    parts := parts + [s[start..]];
  }

  lemma SliceFurther(s: string, start: nat, i: nat)
    requires start <= i < |s|
    ensures s[start..i + 1] == s[start..i] + [s[i]]
    ensures s[i + 1..i + 1] == ""
  {
  }

  lemma SliceToEnd(s: string, start: nat)
    requires start <= |s|
    ensures s[..|s|] == s && s[start..] == s[start..|s|]
  {
  }

  lemma SplitFurther(s: string, i: nat)
    requires i < |s|
    ensures Split(s[..i + 1]) == Grow(Split(s[..i]), s[i])
  {
    assert s[..i + 1][..i] == s[..i];
  }

  lemma GrowLast(parts: seq<string>, last: string, c: char)
    ensures Grow(parts + [last], c) == if c == ',' then parts + [last] + [""] else parts + [last + [c]]
  {
    LengthenSnoc(parts, last, [c]);
  }

  lemma Assoc(a: string, b: string, c: string)
    ensures a + b + c == a + (b + c)
  {
  }

  lemma SplitSnoc(s: string, c: char)
    ensures Split(s + [c]) == Grow(Split(s), c)
  {
    assert (s + [c])[..|s|] == s;
  }

  lemma LengthenSnoc(parts: seq<string>, last: string, more: string)
    ensures Lengthen(parts + [last], more) == parts + [last + more]
  {
    assert (parts + [last])[..|parts|] == parts;
  }

  lemma LengthenTwice(parts: seq<string>, x: string, y: string)
    requires parts != []
    ensures Lengthen(Lengthen(parts, x), y) == Lengthen(parts, x + y)
  {
    var n := |parts| - 1;
    LengthenSnoc(parts[..n], parts[n] + x, y);
    Assoc(parts[n], x, y);
  }

  lemma JoinSnoc(parts: seq<string>, last: string)
    requires parts != []
    ensures Join(parts + [last]) == Join(parts) + "," + last
  {
    assert (parts + [last])[..|parts|] == parts;
  }

  lemma JoinLengthen(parts: seq<string>, more: string)
    requires parts != []
    ensures Join(Lengthen(parts, more)) == Join(parts) + more
  {
    var n := |parts| - 1;
    if n != 0 {
      assert parts == parts[..n] + [parts[n]];
      JoinSnoc(parts[..n], parts[n]);
      JoinSnoc(parts[..n], parts[n] + more);
      Assoc(Join(parts[..n]) + ",", parts[n], more);
    }
  }

  ghost predicate AllCommaFree(parts: seq<string>) {
    forall i | 0 <= i < |parts| :: CommaFree(parts[i])
  }

  lemma JoinGrow(parts: seq<string>, c: char)
    requires parts != []
    ensures Join(Grow(parts, c)) == Join(parts) + [c]
  {
    if c == ',' {
      JoinSnoc(parts, "");
      AppendNothing(Join(parts) + ",");
    } else {
      JoinLengthen(parts, [c]);
    }
  }

  lemma AppendNothing(s: string)
    ensures s + "" == s
  {
  }

  lemma GrowCommaFree(parts: seq<string>, c: char)
    requires parts != [] && AllCommaFree(parts)
    ensures AllCommaFree(Grow(parts, c))
  {
  }

  /** Splitting loses nothing and leaves no comma in a part. */
  lemma {:induction false} SplitThenJoin(s: string)
    ensures Join(Split(s)) == s
    ensures AllCommaFree(Split(s))
  {
    if s == "" {
    } else {
      SplitThenJoin(s[..|s| - 1]);
      JoinOneMore(s[..|s| - 1], s[|s| - 1]);
      FrontAndLast(s);
    }
  }

  lemma JoinOneMore(front: string, c: char)
    requires Join(Split(front)) == front && AllCommaFree(Split(front))
    ensures Join(Split(front + [c])) == front + [c] && AllCommaFree(Split(front + [c]))
  {
    SplitSnoc(front, c);
    JoinGrow(Split(front), c);
    GrowCommaFree(Split(front), c);
  }

  lemma {:induction false} SplitAppend(s: string, part: string)
    requires CommaFree(part)
    ensures Split(s + part) == Lengthen(Split(s), part)
  {
    if part == "" {
      LengthenNothing(s);
    } else {
      var m := |part| - 1;
      assert part == part[..m] + [part[m]];
      SplitAppend(s, part[..m]);
      SplitSnoc(s + part[..m], part[m]);
      Assoc(s, part[..m], [part[m]]);
      LengthenTwice(Split(s), part[..m], [part[m]]);
    }
  }

  lemma LengthenNothing(s: string)
    ensures s + "" == s && Lengthen(Split(s), "") == Split(s)
  {
    var parts := Split(s);
    assert parts[|parts| - 1] + "" == parts[|parts| - 1];
  }

  /** Joining comma-free parts and splitting gives the parts back. */
  lemma {:induction false} JoinThenSplit(parts: seq<string>)
    requires parts != [] && AllCommaFree(parts)
    ensures Split(Join(parts)) == parts
  {
    var n := |parts| - 1;
    if n == 0 {
      SplitAppend("", parts[0]);
      assert "" + parts[0] == parts[0] && parts == [parts[0]];
    } else {
      JoinThenSplit(parts[..n]);
      assert parts == parts[..n] + [parts[n]];
      JoinSnoc(parts[..n], parts[n]);
      SplitAfterComma(Join(parts[..n]), parts[n]);
    }
  }

  lemma SplitAfterComma(s: string, last: string)
    requires CommaFree(last)
    ensures Split(s + "," + last) == Split(s) + [last]
  {
    SplitSnoc(s, ',');
    SplitAppend(s + ",", last);
    LengthenSnoc(Split(s), "", last);
    assert "" + last == last;
  }

  // ----- Numbers -----

  predicate IsDigit(c: char) {
    '0' <= c <= '9'
  }

  function Digit(c: char): nat
    requires IsDigit(c)
  {
    c as int - '0' as int
  }

  /** The digits of a string read as one decimal number; the rest is skipped. */
  function Value(s: string): nat {
    if s == "" then 0
    else
      var n := Value(s[..|s| - 1]);
      var c := s[|s| - 1];
      if IsDigit(c) then n * 10 + Digit(c) else n
  }

  function Decimal(n: nat): string {
    if n < 10 then [('0' as int + n) as char]
    else Decimal(n / 10) + [('0' as int + n % 10) as char]
  }

  lemma WrapStep(x: nat, d: nat)
    ensures Wrap(Wrap(x) * 10 + d) == Wrap(x * 10 + d)
  {
    var q := x / TWO64;
    assert x == q * TWO64 + Wrap(x);
    assert x * 10 + d == (q * 10) * TWO64 + (Wrap(x) * 10 + d);
    WrapMultiple(q * 10, Wrap(x) * 10 + d);
  }

  lemma WrapMultiple(q: nat, x: nat)
    ensures Wrap(q * TWO64 + x) == Wrap(x)
  {
  }

  method ParseUint(s: string) returns (n: uint64)
    ensures n == Wrap(Value(s))
  {
    n := 0;
    for i := 0 to |s|
      invariant n == Wrap(Value(s[..i]))
    {
      assert s[..i + 1][..i] == s[..i];
      if s[i] >= '0' && s[i] <= '9' {
        WrapStep(Value(s[..i]), Digit(s[i]));
        n := Wrap(n * 10 + (s[i] as int - '0' as int));
      }
    }
    assert s[..|s|] == s;
  }

  /** Reading a printed number gives it back; the print has digits only. */
  lemma {:induction false} DecimalValue(n: nat)
    ensures Value(Decimal(n)) == n
    ensures forall i | 0 <= i < |Decimal(n)| :: IsDigit(Decimal(n)[i])
  {
    if n < 10 {
      var s := Decimal(n);
      assert s[..0] == "";
    } else {
      DecimalValue(n / 10);
      var s := Decimal(n);
      assert s[..|s| - 1] == Decimal(n / 10);
    }
  }

  // ----- Workers -----

  /** A missing field keeps its zero value; fields after the fifth are ignored. */
  function WorkerOf(parts: seq<string>): Worker {
    Worker(if |parts| >= 1 then parts[0] else "",
           if |parts| >= 2 then Wrap(Value(parts[1])) else 0,
           if |parts| >= 3 then Wrap(Value(parts[2])) else 0,
           if |parts| >= 4 then Wrap(Value(parts[3])) else 0,
           if |parts| >= 5 then parts[4] else "")
  }

  method ParseWorkerCSV(raw: string) returns (w: Worker)
    ensures w == WorkerOf(Split(raw))
  {
    var parts := SplitCSV(raw);
    w := Worker("", 0, 0, 0, "");
    if |parts| >= 1 {
      w := w.(connection := parts[0]);
    }
    if |parts| >= 2 {
      var n := ParseUint(parts[1]);
      w := w.(hashrate := n);
    }
    if |parts| >= 3 {
      var n := ParseUint(parts[2]);
      w := w.(totalHashes := n);
    }
    if |parts| >= 4 {
      var n := ParseUint(parts[3]);
      w := w.(bestDifficulty := n);
    }
    if |parts| >= 5 {
      w := w.(walletPrefix := parts[4]);
    }
  }

  /** The lines that parse to a worker with a connection, in order. */
  function Named(raws: seq<string>): seq<Worker> {
    if raws == [] then [] else
      var w := WorkerOf(Split(raws[|raws| - 1]));
      Named(raws[..|raws| - 1]) + (if w.connection != "" then [w] else [])
  }

  method Workers(raws: seq<string>) returns (workers: seq<Worker>)
    ensures workers == Named(raws)
  {
    workers := [];
    for i := 0 to |raws|
      invariant workers == Named(raws[..i])
    {
      assert raws[..i + 1][..i] == raws[..i];
      var w := ParseWorkerCSV(raws[i]);
      if w.connection != "" {
        workers := workers + [w];
      }
    }
    assert raws[..|raws|] == raws;
  }

  /** The worker a line stands for, if it names a connection. */
  function Parsed(raw: string): seq<Worker> {
    if Split(raw)[0] == "" then [] else [WorkerOf(Split(raw))]
  }

  lemma NamedSnoc(raws: seq<string>, raw: string)
    ensures Named(raws + [raw]) == Named(raws) + Parsed(raw)
  {
    assert (raws + [raw])[..|raws|] == raws;
  }

  /** The workers of two lists of lines are those of the first, then those of the
      second; so lines are kept in order, each by itself, and exactly those whose
      text up to the first comma is not empty. */
  lemma {:induction false} WorkersInOrder(raws: seq<string>, more: seq<string>)
    ensures Named(raws + more) == Named(raws) + Named(more)
    ensures Named([]) == [] && forall raw :: Named([raw]) == Parsed(raw)
  {
    forall raw ensures Named([raw]) == Parsed(raw) {
      NamedSnoc([], raw);
      assert [] + [raw] == [raw];
    }
    if more == [] {
      assert raws + more == raws;
    } else {
      var n := |more| - 1;
      FrontAndLast(more);
      WorkersInOrder(raws, more[..n]);
      assert raws + more == raws + more[..n] + [more[n]];
      NamedSnoc(raws + more[..n], more[n]);
      NamedSnoc(more[..n], more[n]);
    }
  }

  /** Connection, hashrate, hashes, best difficulty and wallet prefix, in this
      order; a field that is not there is zero or empty. */
  lemma FieldsByPosition(parts: seq<string>)
    ensures parts != [] ==> WorkerOf(parts).connection == parts[0]
    ensures 2 <= |parts| ==> WorkerOf(parts).hashrate == Value(parts[1]) % 0x1_0000_0000_0000_0000
    ensures 3 <= |parts| ==> WorkerOf(parts).totalHashes == Value(parts[2]) % 0x1_0000_0000_0000_0000
    ensures 4 <= |parts| ==> WorkerOf(parts).bestDifficulty == Value(parts[3]) % 0x1_0000_0000_0000_0000
    ensures 5 <= |parts| ==> WorkerOf(parts).walletPrefix == parts[4]
    ensures |parts| < 2 ==> WorkerOf(parts).hashrate == 0
    ensures |parts| < 3 ==> WorkerOf(parts).totalHashes == 0
    ensures |parts| < 4 ==> WorkerOf(parts).bestDifficulty == 0
    ensures |parts| < 5 ==> WorkerOf(parts).walletPrefix == ""
  {
  }

  /** Characters that are no digits do not matter, wherever they stand. */
  lemma {:induction false} OthersSkipped(s: string, c: char, more: string)
    requires !('0' <= c <= '9')
    ensures Value(s + [c] + more) == Value(s + more)
  {
    if more == "" {
      assert s + [c] + more == s + [c] && s + more == s && (s + [c])[..|s|] == s;
    } else {
      var n := |more| - 1;
      OthersSkipped(s, c, more[..n]);
      FrontAndLast(more);
      ValueSnoc(s + [c] + more[..n], more[n]);
      ValueSnoc(s + more[..n], more[n]);
      assert s + [c] + more == s + [c] + more[..n] + [more[n]];
      assert s + more == s + more[..n] + [more[n]];
    }
  }

  lemma ValueSnoc(s: string, c: char)
    ensures Value(s + [c]) == if IsDigit(c) then Value(s) * 10 + Digit(c) else Value(s)
  {
    assert (s + [c])[..|s|] == s;
  }

  /** "IP:port,hashrate,hashes,bestDiff,walletPrefix" */
  function Fields(w: Worker): seq<string> {
    [w.connection, Decimal(w.hashrate), Decimal(w.totalHashes), Decimal(w.bestDifficulty), w.walletPrefix]
  }

  function Print(w: Worker): string {
    Join(Fields(w))
  }

  lemma DecimalCommaFree(n: nat)
    ensures CommaFree(Decimal(n))
  {
    DecimalValue(n);
  }

  /** Round trip: a printed worker is read back unchanged exactly when its text
      fields contain no comma. */
  lemma PrintThenParse(w: Worker)
    ensures WorkerOf(Split(Print(w))) == w <==> CommaFree(w.connection) && CommaFree(w.walletPrefix)
  {
    SplitThenJoin(Print(w));
    if CommaFree(w.connection) && CommaFree(w.walletPrefix) {
      DecimalCommaFree(w.hashrate);
      DecimalCommaFree(w.totalHashes);
      DecimalCommaFree(w.bestDifficulty);
      JoinThenSplit(Fields(w));
      DecimalValue(w.hashrate);
      DecimalValue(w.totalHashes);
      DecimalValue(w.bestDifficulty);
    }
  }
}
