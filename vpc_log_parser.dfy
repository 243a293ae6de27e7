/** analyze_vpc_transfer_cost of cost/vpc_log_parser.py: flow-log rows are
    sorted into three traffic categories by a literal prefix test on the
    destination address, and their byte counts are summed per category.
    Rows come already split on spaces; a row whose destination or byte
    field is missing, or whose byte field Python's `int()` rejects, is
    skipped. */
module VpcLogParser {
  import opened Aws

  /** A flow-log record split on spaces (field 4 is dstaddr, field 10 bytes). */
  type Row = seq<string>

  const Internet: string := "internet"
  const IntraVpc: string := "intra_vpc"
  const InterAz: string := "inter_az"

  const PublicPrefixes: seq<string> := ["3.", "13.", "15."]
  const PrivatePrefixes: seq<string> := ["10.", "172.16.", "192.168."]

  // ---------------------------------------------------------------------
  // Python's int() on a string, for base 10 and ASCII text

  /** The ASCII characters `int()` skips around a number: tab, line feed,
      vertical tab, form feed, carriage return and space. The separators
      0x1c to 0x1f, which `str.isspace()` also accepts, are not skipped. */
  predicate IsSpace(c: char) {
    var k := c as int;
    9 <= k <= 13 || k == 32
  }

  predicate IsDigit(c: char) {
    48 <= c as int <= 57
  }

  function StripLeft(s: string): (r: string)
    ensures |r| <= |s|
    ensures r != [] ==> !IsSpace(r[0])
  {
    if s != [] && IsSpace(s[0]) then StripLeft(s[1..]) else s
  }

  /** `lstrip` drops the leading whitespace and nothing else: what it keeps
      is a suffix that starts with a non-space (or is empty), and every
      character before it is a space. */
  lemma {:induction false} StripLeftDropsSpace(s: string)
    ensures var r := StripLeft(s);
            r == s[|s| - |r|..] && forall j :: 0 <= j < |s| - |r| ==> IsSpace(s[j])
  {
    if s != [] && IsSpace(s[0]) {
      StripLeftDropsSpace(s[1..]);
      var r := StripLeft(s);
      forall j | 0 <= j < |s| - |r| ensures IsSpace(s[j]) {
        if j > 0 { assert s[j] == s[1..][j - 1]; }
      }
      assert s[1..][|s[1..]| - |r|..] == s[|s| - |r|..];
    }
  }

  function StripRight(s: string): (r: string)
    ensures |r| <= |s|
    ensures r != [] ==> !IsSpace(r[|r| - 1])
    ensures r == s[..|r|]
  {
    if s != [] && IsSpace(s[|s| - 1]) then StripRight(s[..|s| - 1]) else s
  }

  /** `rstrip` drops the trailing whitespace and nothing else. */
  lemma {:induction false} StripRightDropsSpace(s: string)
    ensures forall j :: |StripRight(s)| <= j < |s| ==> IsSpace(s[j])
  {
    if s != [] && IsSpace(s[|s| - 1]) {
      StripRightDropsSpace(s[..|s| - 1]);
    }
  }

  /** `s.strip()`: the surrounding whitespace that `int()` ignores. */
  function Strip(s: string): string {
    StripRight(StripLeft(s))
  }

  /** Digits with single underscores between them, as `int()` accepts. */
  predicate DigitRun(b: string) {
    |b| >= 1 && IsDigit(b[0]) && IsDigit(b[|b| - 1]) &&
    forall i :: 0 <= i < |b| ==>
      IsDigit(b[i]) || (b[i] == '_' && 0 < i < |b| - 1 && IsDigit(b[i - 1]) && IsDigit(b[i + 1]))
  }

  /** The value of a digit run, underscores ignored. */
  function RunValue(b: string): nat {
    if b == [] then 0
    else if IsDigit(b[|b| - 1]) then RunValue(b[..|b| - 1]) * 10 + (b[|b| - 1] as int - 48)
    else RunValue(b[..|b| - 1])
  }

  /** `int(s)`: `None` where Python raises ValueError. */
  function ParseInt(s: string): (r: Option<int>)
    ensures r.Some? ==> Strip(s) != []
  {
    var t := Strip(s);
    if t == [] then None
    else if t[0] == '-' || t[0] == '+' then
      var magnitude: int := RunValue(t[1..]);
      if DigitRun(t[1..]) then Some(if t[0] == '-' then -magnitude else magnitude) else None
    else if DigitRun(t) then Some(RunValue(t))
    else None
  }

  lemma {:induction false} NatTextDigits(n: nat)
    ensures forall i :: 0 <= i < |NatText(n)| ==> IsDigit(NatText(n)[i])
    ensures RunValue(NatText(n)) == n
  {
    if n >= 10 {
      NatTextDigits(n / 10);
      var t := NatText(n);
      assert t[..|t| - 1] == NatText(n / 10);
    }
  }

  lemma StripUnchanged(s: string)
    requires s != [] && !IsSpace(s[0]) && !IsSpace(s[|s| - 1])
    ensures Strip(s) == s
  {
  }

  /** `int(str(n)) == n`: what `str()` renders, `int()` reads back. */
  lemma ParseIntText(n: int)
    ensures ParseInt(IntText(n)) == Some(n)
  {
    var m: nat := if n < 0 then -n else n;
    NatTextDigits(m);
    var t := IntText(n);
    StripUnchanged(t);
    if n < 0 {
      assert t[1..] == NatText(m);
    }
  }

  /** Text that is not a number does not parse. */
  lemma ParseIntRejects()
    ensures ParseInt("") == None
    ensures ParseInt("-") == None
    ensures ParseInt("1__0") == None
    ensures ParseInt("_1") == None
    ensures ParseInt("12a") == None
  {
    assert !IsDigit('a');
    assert "1__0"[1] == '_' && "1__0"[2] == '_';
  }

  /** The information separators 0x1c to 0x1f are not whitespace to
      `int()`: a field that starts with one is rejected, and the row with it
      is skipped. */
  lemma ParseIntRejectsSeparator()
    ensures ParseInt([28 as char, '5']) == None
    ensures ParseInt(['5', 31 as char]) == None
  {
    assert StripLeft([28 as char, '5']) == [28 as char, '5'];
    assert Strip([28 as char, '5']) == [28 as char, '5'];
    assert Strip(['5', 31 as char]) == ['5', 31 as char];
  }

  /** Whitespace around the number and single underscores inside it are
      accepted. */
  lemma ParseIntAcceptsSpace()
    ensures ParseInt(" 42\n") == Some(42)
  {
    var s := " 42\n";
    assert StripLeft(s) == s[1..];
    assert s[1..] == "42\n";
    assert StripLeft("42\n") == "42\n";
    assert StripRight("42\n") == StripRight("42") by {
      assert "42\n"[..2] == "42";
    }
    assert StripRight("42") == "42";
    assert "42"[..1] == "4";
    assert RunValue("4") == 4 by {
      assert "4"[..0] == "";
    }
  }

  lemma ParseIntAcceptsUnderscore()
    ensures ParseInt("1_000") == Some(1000)
  {
    assert Strip("1_000") == "1_000";
    assert "1_000"[..4] == "1_00" && "1_00"[..3] == "1_0" && "1_0"[..2] == "1_" && "1_"[..1] == "1";
    assert "1"[..0] == "";
    assert DigitRun("1_000");
  }

  lemma ParseIntAcceptsSign()
    ensures ParseInt("-7") == Some(-7)
  {
    assert Strip("-7") == "-7";
    assert "-7"[1..] == "7";
    assert "7"[..0] == "";
  }

  // ---------------------------------------------------------------------
  // Classification

  /** `any(addr.startswith(p) for p in prefixes)`. */
  predicate HasPrefixIn(addr: string, prefixes: seq<string>) {
    prefixes != [] && (StartsWith(addr, prefixes[0]) || HasPrefixIn(addr, prefixes[1..]))
  }

  lemma {:induction false} HasPrefixInMeaning(addr: string, prefixes: seq<string>)
    ensures HasPrefixIn(addr, prefixes) <==> exists p :: p in prefixes && StartsWith(addr, p)
  {
    if prefixes != [] {
      HasPrefixInMeaning(addr, prefixes[1..]);
      assert prefixes == [prefixes[0]] + prefixes[1..];
    }
  }

  /** The category of a destination address: a public prefix first, then a
      private one, and every other address is inter-AZ. */
  function Category(addr: string): string {
    if HasPrefixIn(addr, PublicPrefixes) then Internet
    else if HasPrefixIn(addr, PrivatePrefixes) then IntraVpc
    else InterAz
  }

  /** An address is internet traffic iff it starts with a public prefix,
      even when it also starts with a private one; intra-VPC iff it starts
      with a private prefix and no public one; inter-AZ otherwise. */
  lemma CategoryMeaning(addr: string)
    ensures Category(addr) == Internet <==> exists p :: p in PublicPrefixes && StartsWith(addr, p)
    ensures Category(addr) == IntraVpc <==>
              (forall p :: p in PublicPrefixes ==> !StartsWith(addr, p)) &&
              exists p :: p in PrivatePrefixes && StartsWith(addr, p)
    ensures Category(addr) == InterAz <==>
              forall p :: p in PublicPrefixes + PrivatePrefixes ==> !StartsWith(addr, p)
  {
    HasPrefixInMeaning(addr, PublicPrefixes);
    HasPrefixInMeaning(addr, PrivatePrefixes);
  }

  /** Text that differs from a prefix at some position does not start with it. */
  lemma DiffersAt(s: string, p: string, k: nat)
    requires k < |p| && k < |s| && s[k] != p[k]
    ensures !StartsWith(s, p)
  {
    if |p| <= |s| {
      assert s[..|p|][k] == s[k];
    }
  }

  /** The test is on text, not on address ranges: 172.17.0.1 lies in the
      private block 172.16.0.0/12 yet counts as inter-AZ, and 100.64.0.1,
      although its text begins with "10", does not start with "10.". */
  lemma CategoryIsTextual()
    ensures Category("172.17.0.1") == InterAz
    ensures Category("100.64.0.1") == InterAz
    ensures Category("10.0.0.1") == IntraVpc
    ensures Category("13.5.0.1") == Internet
  {
    var a := "172.17.0.1";
    DiffersAt(a, "3.", 0);
    DiffersAt(a, "13.", 1);
    DiffersAt(a, "15.", 1);
    DiffersAt(a, "10.", 1);
    DiffersAt(a, "172.16.", 5);
    DiffersAt(a, "192.168.", 1);
    var b := "100.64.0.1";
    DiffersAt(b, "3.", 0);
    DiffersAt(b, "13.", 1);
    DiffersAt(b, "15.", 1);
    DiffersAt(b, "10.", 2);
    DiffersAt(b, "172.16.", 1);
    DiffersAt(b, "192.168.", 1);
    var c := "10.0.0.1";
    DiffersAt(c, "3.", 0);
    DiffersAt(c, "13.", 1);
    DiffersAt(c, "15.", 1);
    assert c[..3] == "10.";
    assert "13.5.0.1"[..3] == "13.";
  }

  // ---------------------------------------------------------------------
  // The row loop

  /** A row the loop does not skip: it has field 10 and that field parses. */
  predicate Valid(row: Row) {
    |row| >= 11 && ParseInt(row[10]).Some?
  }

  function Bytes(row: Row): int
    requires Valid(row)
  {
    ParseInt(row[10]).value
  }

  /** `summary[key] += amount` on a `defaultdict(int)`. */
  function AddTo(summary: map<string, int>, key: string, amount: int): (r: map<string, int>)
    ensures r.Keys == summary.Keys + {key}
    ensures r[key] == (if key in summary then summary[key] else 0) + amount
    ensures forall k :: k in summary && k != key ==> r[k] == summary[k]
  {
    summary[key := (if key in summary then summary[key] else 0) + amount]
  }

  /** Reference definition of the summary after a prefix of the rows. */
  function Summary(rows: seq<Row>): map<string, int> {
    if rows == [] then map[]
    else
      var summary := Summary(rows[..|rows| - 1]);
      var row := rows[|rows| - 1];
      if Valid(row) then AddTo(summary, Category(row[4]), Bytes(row)) else summary
  }

  method AnalyzeVpcTransferCost(rows: seq<Row>) returns (summary: map<string, int>)
    ensures summary == Summary(rows)
  {
    summary := map[];
    var i := 0;
    while i < |rows|
      invariant 0 <= i <= |rows|
      invariant summary == Summary(rows[..i])
    {
      assert rows[..i + 1][..i] == rows[..i];
      var row := rows[i];
      if |row| >= 11 {
        var dstaddr := row[4];
        var bytesSent := ParseInt(row[10]);
        if bytesSent.Some? {
          var category := Category(dstaddr);
          summary := summary[category := (if category in summary then summary[category] else 0) + bytesSent.value];
        }
      }
      i := i + 1;
    }
    assert rows[..i] == rows;
  }

  /** Independent reference: the bytes of the valid rows in one category. */
  function Total(rows: seq<Row>, category: string): int {
    if rows == [] then 0
    else
      var row := rows[|rows| - 1];
      Total(rows[..|rows| - 1], category) + (if Valid(row) && Category(row[4]) == category then Bytes(row) else 0)
  }

  predicate Receives(rows: seq<Row>, category: string) {
    exists i :: 0 <= i < |rows| && Valid(rows[i]) && Category(rows[i][4]) == category
  }

  /** A category receives rows from a prefix and the last row. */
  lemma ReceivesSnoc(rows: seq<Row>, c: string)
    requires rows != []
    ensures Receives(rows, c) <==>
              Receives(rows[..|rows| - 1], c) || (Valid(rows[|rows| - 1]) && Category(rows[|rows| - 1][4]) == c)
  {
    var init := rows[..|rows| - 1];
    if Receives(init, c) {
      var i :| 0 <= i < |init| && Valid(init[i]) && Category(init[i][4]) == c;
      assert rows[i] == init[i];
    }
    if Receives(rows, c) {
      var i :| 0 <= i < |rows| && Valid(rows[i]) && Category(rows[i][4]) == c;
      if i < |init| {
        assert init[i] == rows[i];
      }
    }
  }

  /** The summary has a key exactly for the categories some valid row falls
      in. */
  lemma {:induction false} SummaryKeysMeaning(rows: seq<Row>)
    ensures forall c :: c in Summary(rows) <==> Receives(rows, c)
  {
    if rows != [] {
      SummaryKeysMeaning(rows[..|rows| - 1]);
      forall c ensures c in Summary(rows) <==> Receives(rows, c) {
        ReceivesSnoc(rows, c);
      }
    }
  }

  /** Each key holds the sum of its category's byte counts. */
  lemma {:induction false} SummaryTotals(rows: seq<Row>)
    ensures forall c :: c in Summary(rows) ==> Summary(rows)[c] == Total(rows, c)
  {
    if rows != [] {
      var init := rows[..|rows| - 1];
      SummaryTotals(init);
      SummaryKeysMeaning(init);
      forall c | c !in Summary(init) ensures Total(init, c) == 0 {
        TotalWithoutRows(init, c);
      }
    }
  }

  /** A category no valid row falls in totals nothing. */
  lemma {:induction false} TotalWithoutRows(rows: seq<Row>, category: string)
    requires !Receives(rows, category)
    ensures Total(rows, category) == 0
  {
    if rows != [] {
      ReceivesSnoc(rows, category);
      TotalWithoutRows(rows[..|rows| - 1], category);
    }
  }

  /** The keys are always among the three categories. */
  lemma {:induction false} SummaryKeys(rows: seq<Row>)
    ensures Summary(rows).Keys <= {Internet, IntraVpc, InterAz}
  {
    if rows != [] {
      SummaryKeys(rows[..|rows| - 1]);
    }
  }

  /** The valid rows, in their order. */
  function ValidRows(rows: seq<Row>): seq<Row> {
    if rows == [] then []
    else ValidRows(rows[..|rows| - 1]) + (if Valid(rows[|rows| - 1]) then [rows[|rows| - 1]] else [])
  }

  /** Skipped rows change nothing: the summary of all rows is the summary
      of the valid ones. */
  lemma {:induction false} SkippedRowsChangeNothing(rows: seq<Row>)
    ensures Summary(rows) == Summary(ValidRows(rows))
  {
    if rows != [] {
      var init := rows[..|rows| - 1];
      SkippedRowsChangeNothing(init);
      var last := rows[|rows| - 1];
      var v := ValidRows(rows);
      if Valid(last) {
        assert v == ValidRows(init) + [last];
        assert v[..|v| - 1] == ValidRows(init);
        assert v[|v| - 1] == last;
      } else {
        assert v == ValidRows(init) + [];
        assert ValidRows(init) + [] == ValidRows(init);
      }
    }
  }
}
