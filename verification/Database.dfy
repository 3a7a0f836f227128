/** The relayer's database file (bridge/src/database.rs) and how `Bridge` saves it (bridge/src/bridge/mod.rs). */
module Database {
  import opened Wrappers
  import opened Bytes
  import opened Evm
  import opened Numerals

  datatype Database = Database(
    home: Bytes20, foreign: Bytes20, homeDeploy: Option<uint64>, foreignDeploy: Option<uint64>,
    depositRelay: uint64, withdrawRelay: uint64, withdrawConfirm: uint64)

  /** Which component has checked up to which block. */
  datatype Checked = DepositRelay(block: uint64) | WithdrawRelay(block: uint64) | WithdrawConfirm(block: uint64)

  function Hex(octets: seq<byte>): (s: seq<byte>)
    ensures |s| == 2 * |octets|
  {
    if octets == [] then []
    else Hex(octets[..|octets| - 1]) + [HexDigit(octets[|octets| - 1] / 16), HexDigit(octets[|octets| - 1] % 16)]
  }

  function HexDigit(d: byte): byte
    requires d < 16
  {
    if d < 10 then 48 + d else 87 + d
  }

  const NEWLINE: byte := 10
  const QUOTE: byte := 34

  function AddressLine(name: string, a: Bytes20): seq<byte> {
    Ascii(name) + Ascii(" = \"0x") + Hex(a) + [QUOTE, NEWLINE]
  }

  function NumberLine(name: string, n: uint64): seq<byte> {
    Ascii(name) + Ascii(" = ") + Decimal(n) + [NEWLINE]
  }

  function OptionalLine(name: string, n: Option<uint64>): seq<byte> {
    if n.None? then [] else NumberLine(name, n.value)
  }

  /** The names of the fields, in their order in the file. */
  datatype Names = Names(
    home: string, foreign: string, homeDeploy: string, foreignDeploy: string,
    depositRelay: string, withdrawRelay: string, withdrawConfirm: string)

  const NAMES := Names(
    "home_contract_address", "foreign_contract_address", "home_deploy", "foreign_deploy",
    "checked_deposit_relay", "checked_withdraw_relay", "checked_withdraw_confirm")

  function Checkpoints(n: Names, db: Database): seq<byte> {
    NumberLine(n.depositRelay, db.depositRelay) +
    (NumberLine(n.withdrawRelay, db.withdrawRelay) + NumberLine(n.withdrawConfirm, db.withdrawConfirm))
  }

  function Deployments(n: Names, db: Database): seq<byte> {
    OptionalLine(n.homeDeploy, db.homeDeploy) + (OptionalLine(n.foreignDeploy, db.foreignDeploy) + Checkpoints(n, db))
  }

  function PrintAs(n: Names, db: Database): seq<byte> {
    AddressLine(n.home, db.home) + (AddressLine(n.foreign, db.foreign) + Deployments(n, db))
  }

  /** The serialized database, one line per field. */
  function Print(db: Database): seq<byte> {
    PrintAs(NAMES, db)
  }

  /* The text, word for word. */

  lemma {:induction false} AsciiConcat(a: string, b: string)
    ensures Ascii(a + b) == Ascii(a) + Ascii(b)
  {
  }

  lemma {:induction false} AddressLineText(name: string, a: Bytes20)
    ensures AddressLine(name, a) == Ascii(name + " = \"0x") + Hex(a) + Ascii("\"\n")
  {
    AsciiConcat(name, " = \"0x");
    assert Ascii("\"\n") == [QUOTE, NEWLINE];
  }

  lemma {:induction false} NumberLineText(name: string, n: uint64)
    ensures NumberLine(name, n) == Ascii(name + " = ") + Decimal(n) + Ascii("\n")
  {
    AsciiConcat(name, " = ");
    assert Ascii("\n") == [NEWLINE];
  }

  /** The two hexadecimal digits of an octet, in lower case. */
  lemma {:induction false} HexText(octets: seq<byte>, i: nat)
    requires i < |octets|
    ensures Hex(octets)[2 * i] == Ascii("0123456789abcdef")[octets[i] / 16]
    ensures Hex(octets)[2 * i + 1] == Ascii("0123456789abcdef")[octets[i] % 16]
  {
    var m := |octets| - 1;
    if i < m {
      HexText(octets[..m], i);
    } else {
      DigitText(octets[i] / 16);
      DigitText(octets[i] % 16);
    }
  }

  lemma {:induction false} DigitText(d: byte)
    requires d < 16
    ensures HexDigit(d) == Ascii("0123456789abcdef")[d]
  {
    var text := "0123456789abcdef";
    assert text[d] as int == if d < 10 then 48 + d else 87 + d;
  }

  lemma {:induction false} OptionalText(name: string, n: Option<uint64>)
    ensures OptionalLine(name, n) == if n.None? then [] else Ascii(name + " = ") + Decimal(n.value) + Ascii("\n")
  {
    if n.Some? {
      NumberLineText(name, n.value);
    }
  }

  /** The lines of the file, each field under its own name and in the order of the structure. */
  lemma {:induction false} PrintText(db: Database)
    ensures Print(db) ==
            (Ascii("home_contract_address" + " = \"0x") + Hex(db.home) + Ascii("\"\n")) +
            ((Ascii("foreign_contract_address" + " = \"0x") + Hex(db.foreign) + Ascii("\"\n")) +
             ((if db.homeDeploy.None? then [] else Ascii("home_deploy" + " = ") + Decimal(db.homeDeploy.value) + Ascii("\n")) +
              ((if db.foreignDeploy.None? then [] else Ascii("foreign_deploy" + " = ") + Decimal(db.foreignDeploy.value) + Ascii("\n")) +
               ((Ascii("checked_deposit_relay" + " = ") + Decimal(db.depositRelay) + Ascii("\n")) +
                ((Ascii("checked_withdraw_relay" + " = ") + Decimal(db.withdrawRelay) + Ascii("\n")) +
                 (Ascii("checked_withdraw_confirm" + " = ") + Decimal(db.withdrawConfirm) + Ascii("\n")))))))
  {
    AddressLineText("home_contract_address", db.home);
    AddressLineText("foreign_contract_address", db.foreign);
    OptionalText("home_deploy", db.homeDeploy);
    OptionalText("foreign_deploy", db.foreignDeploy);
    NumberLineText("checked_deposit_relay", db.depositRelay);
    NumberLineText("checked_withdraw_relay", db.withdrawRelay);
    NumberLineText("checked_withdraw_confirm", db.withdrawConfirm);
  }

  function Record(db: Database, check: Checked): Database {
    match check
    case DepositRelay(n) => db.(depositRelay := n)
    case WithdrawRelay(n) => db.(withdrawRelay := n)
    case WithdrawConfirm(n) => db.(withdrawConfirm := n)
  }

  function CheckpointOf(db: Database, check: Checked): uint64 {
    match check
    case DepositRelay(_) => db.depositRelay
    case WithdrawRelay(_) => db.withdrawRelay
    case WithdrawConfirm(_) => db.withdrawConfirm
  }

  /** Writing from the start of a file opened without truncation. */
  function Overwrite(file: seq<byte>, text: seq<byte>): seq<byte> {
    if |text| < |file| then text + file[|text|..] else text
  }

  /** The saving half of `Bridge`: the database in memory and the file on disk. */
  class Bridge {
    var database: Database
    var file: seq<byte>

    constructor (database: Database, file: seq<byte>)
      ensures this.database == database && this.file == file
    {
      this.database, this.file := database, file;
    }

    /** `poll`, once the event stream has yielded `check`; opening or writing the file may fail. */
    method Save(check: Checked, writable: bool) returns (ok: bool)
      modifies this
      ensures ok == writable
      ensures database == Record(old(database), check)
      ensures file == if writable then Overwrite(old(file), Print(database)) else old(file)
    {
      match check {
        case DepositRelay(n) => database := database.(depositRelay := n);
        case WithdrawRelay(n) => database := database.(withdrawRelay := n);
        case WithdrawConfirm(n) => database := database.(withdrawConfirm := n);
      }
      if !writable {
        return false;
      }
      file := Overwrite(file, Print(database));
      return true;
    }
  }

  /** A save leaves exactly the printed database exactly when the old file was no longer than it. */
  lemma {:induction false} SaveIsExactIff(file: seq<byte>, db: Database)
    ensures Overwrite(file, Print(db)) == Print(db) <==> |file| <= |Print(db)|
  {
  }

  /** A later checkpoint never makes the text shorter. */
  lemma {:induction false} PrintGrows(db: Database, check: Checked)
    requires CheckpointOf(db, check) <= check.block
    ensures |Print(db)| <= |Print(Record(db, check))|
  {
    DecimalMonotone(CheckpointOf(db, check), check.block);
  }

  datatype Saved = Saved(db: Database, file: seq<byte>)

  /** A run of saves, in whatever format `render` prints. */
  function SavesBy(render: Database -> seq<byte>, s: Saved, checks: seq<Checked>): Saved
    decreases |checks|
  {
    if checks == [] then s
    else
      var db := Record(s.db, checks[0]);
      SavesBy(render, Saved(db, Overwrite(s.file, render(db))), checks[1..])
  }

  function Saves(s: Saved, checks: seq<Checked>): Saved {
    SavesBy(Print, s, checks)
  }

  /** A checkpoint goes to its own component's field and to no other. */
  lemma {:induction false} RecordEffects(db: Database, block: uint64)
    ensures Record(db, DepositRelay(block)) ==
            Database(db.home, db.foreign, db.homeDeploy, db.foreignDeploy, block, db.withdrawRelay, db.withdrawConfirm)
    ensures Record(db, WithdrawRelay(block)) ==
            Database(db.home, db.foreign, db.homeDeploy, db.foreignDeploy, db.depositRelay, block, db.withdrawConfirm)
    ensures Record(db, WithdrawConfirm(block)) ==
            Database(db.home, db.foreign, db.homeDeploy, db.foreignDeploy, db.depositRelay, db.withdrawRelay, block)
  {
  }

  /** Every checkpoint is at least the one it replaces. */
  predicate NeverDecreases(db: Database, checks: seq<Checked>)
    decreases |checks|
  {
    checks == [] ||
    (CheckpointOf(db, checks[0]) <= checks[0].block && NeverDecreases(Record(db, checks[0]), checks[1..]))
  }

  ghost predicate Grows(render: Database -> seq<byte>) {
    forall db, check :: CheckpointOf(db, check) <= check.block ==> |render(db)| <= |render(Record(db, check))|
  }

  lemma {:induction false} PrintGrowsAlways()
    ensures Grows(Print)
  {
    forall db, check | CheckpointOf(db, check) <= check.block ensures |Print(db)| <= |Print(Record(db, check))| {
      PrintGrows(db, check);
    }
  }

  lemma {:induction false} SavesByAreExact(render: Database -> seq<byte>, s: Saved, checks: seq<Checked>)
    requires Grows(render) && |s.file| <= |render(s.db)| && NeverDecreases(s.db, checks) && checks != []
    ensures var end := SavesBy(render, s, checks); end.file == render(end.db)
    decreases |checks|
  {
    var db := Record(s.db, checks[0]);
    assert |render(s.db)| <= |render(db)|;
    if |checks| > 1 {
      SavesByAreExact(render, Saved(db, Overwrite(s.file, render(db))), checks[1..]);
    }
  }

  /**
   * Although the file is never truncated: if it starts no longer than the printed database and
   * checkpoints never decrease, it is the printed database after every save.
   */
  lemma {:induction false} SavesAreExact(s: Saved, checks: seq<Checked>)
    requires |s.file| <= |Print(s.db)| && NeverDecreases(s.db, checks) && checks != []
    ensures Saves(s, checks).file == Print(Saves(s, checks).db)
  {
    PrintGrowsAlways();
    SavesByAreExact(Print, s, checks);
  }

  /* Reading the file back. */

  function HexValue(c: byte): Option<byte> {
    if 48 <= c <= 57 then Some(c - 48) else if 97 <= c <= 102 then Some(c - 87) else None
  }

  function Unhex(h: seq<byte>): (r: Option<seq<byte>>)
    ensures r.Some? ==> |h| == 2 * |r.value|
  {
    if |h| < 2 then if h == [] then Some([]) else None
    else
      var n := |h| - 2;
      var front, high, low := Unhex(h[..n]), HexValue(h[n]), HexValue(h[n + 1]);
      if front.None? || high.None? || low.None? then None else Some(front.value + [16 * high.value + low.value])
  }

  lemma {:induction false} HexValueIff(c: byte, d: byte)
    requires d < 16
    ensures HexValue(c) == Some(d) <==> c == HexDigit(d)
  {
  }

  lemma {:induction false} UnhexIff(h: seq<byte>, octets: seq<byte>)
    ensures Unhex(h) == Some(octets) <==> h == Hex(octets)
  {
    if octets != [] && |h| == 2 * |octets| {
      var n, m := |h| - 2, |octets| - 1;
      UnhexIff(h[..n], octets[..m]);
      UnhexLast(h, n, octets, m);
    }
  }

  lemma {:induction false} UnhexLast(h: seq<byte>, n: nat, octets: seq<byte>, m: nat)
    requires |h| == n + 2 && |octets| == m + 1 && n == 2 * m
    requires Unhex(h[..n]) == Some(octets[..m]) <==> h[..n] == Hex(octets[..m])
    ensures Unhex(h) == Some(octets) <==> h == Hex(octets)
  {
    var front, high, low := octets[..m], octets[m] / 16, octets[m] % 16;
    HexValueIff(h[n], high);
    HexValueIff(h[n + 1], low);
    SplitTwo(h, n, Hex(front), HexDigit(high), HexDigit(low));
    if Unhex(h[..n]).Some? && HexValue(h[n]).Some? && HexValue(h[n + 1]).Some? {
      SplitOne(Unhex(h[..n]).value, 16 * HexValue(h[n]).value + HexValue(h[n + 1]).value, octets, m);
    }
  }

  lemma {:induction false} SplitTwo(h: seq<byte>, n: nat, front: seq<byte>, a: byte, b: byte)
    requires |h| == n + 2 && |front| == n
    ensures h == front + [a, b] <==> h[..n] == front && h[n] == a && h[n + 1] == b
  {
    assert h == h[..n] + [h[n], h[n + 1]];
  }

  lemma {:induction false} SplitOne(front: seq<byte>, last: byte, octets: seq<byte>, m: nat)
    requires |octets| == m + 1 && |front| == m
    ensures front + [last] == octets <==> front == octets[..m] && last == octets[m]
  {
    assert octets == octets[..m] + [octets[m]];
  }

  /** How many digits a text starts with. */
  function DigitCount(s: seq<byte>): (n: nat)
    ensures n <= |s| && AllDigits(s[..n]) && (n < |s| ==> !IsDigit(s[n]))
  {
    if s == [] || !IsDigit(s[0]) then 0
    else
      var n := 1 + DigitCount(s[1..]);
      assert s[..n] == [s[0]] + s[1..][..n - 1];
      n
  }

  function ReadNumberLine(name: string, s: seq<byte>): Option<(uint64, seq<byte>)> {
    var head := Ascii(name) + Ascii(" = ");
    if !(head <= s) then None else ReadNumber(s[|head|..])
  }

  function ReadNumber(s: seq<byte>): Option<(uint64, seq<byte>)> {
    var n := DigitCount(s);
    var v := Value(s[..n]);
    if n == |s| || s[n] != NEWLINE || v < 0 || v >= TWO_64 || s[..n] != Decimal(v) then None
    else Some((v, s[n + 1..]))
  }

  /** A numeral ends at the first octet that is not a digit. */
  lemma {:induction false} DigitCountIs(digits: seq<byte>, rest: seq<byte>)
    requires AllDigits(digits) && rest != [] && !IsDigit(rest[0])
    ensures DigitCount(digits + rest) == |digits|
  {
    if digits == [] {
      assert [] + rest == rest;
    } else {
      assert (digits + rest)[1..] == digits[1..] + rest;
      DigitCountIs(digits[1..], rest);
    }
  }

  lemma {:induction false} ReadNumberIff(s: seq<byte>, v: uint64, rest: seq<byte>)
    ensures ReadNumber(s) == Some((v, rest)) <==> s == Decimal(v) + [NEWLINE] + rest
  {
    ReadNumberOf(v, rest);
    var n := DigitCount(s);
    if n < |s| {
      assert s == s[..n] + [s[n]] + s[n + 1..];
    }
  }

  lemma {:induction false} ReadNumberOf(v: uint64, rest: seq<byte>)
    ensures ReadNumber(Decimal(v) + [NEWLINE] + rest) == Some((v, rest))
  {
    var digits, end := Decimal(v), [NEWLINE] + rest;
    var s := Decimal(v) + [NEWLINE] + rest;
    assert s == digits + end;
    DecimalIsNumeral(v);
    DigitCountIs(digits, end);
    assert s[..|digits|] == digits && s[|digits| + 1..] == rest;
  }

  lemma {:induction false} ReadNumberLineIff(name: string, s: seq<byte>, v: uint64, rest: seq<byte>)
    ensures ReadNumberLine(name, s) == Some((v, rest)) <==> s == NumberLine(name, v) + rest
  {
    var head := Ascii(name) + Ascii(" = ");
    var line := NumberLine(name, v) + rest;
    assert line == head + (Decimal(v) + [NEWLINE] + rest);
    assert line[|head|..] == Decimal(v) + [NEWLINE] + rest;
    if head <= s {
      ReadNumberIff(s[|head|..], v, rest);
      assert s == head + s[|head|..];
    }
  }

  function ReadAddressLine(name: string, s: seq<byte>): Option<(Bytes20, seq<byte>)> {
    var head := Ascii(name) + Ascii(" = \"0x");
    if !(head <= s) || |s| < |head| + 42 || s[|head| + 40..|head| + 42] != [QUOTE, NEWLINE] then None
    else
      match Unhex(s[|head|..|head| + 40])
      case None => None
      case Some(octets) => Some((octets, s[|head| + 42..]))
  }

  lemma {:induction false} ReadAddressLineIff(name: string, s: seq<byte>, a: Bytes20, rest: seq<byte>)
    ensures ReadAddressLine(name, s) == Some((a, rest)) <==> s == AddressLine(name, a) + rest
  {
    var head := Ascii(name) + Ascii(" = \"0x");
    var line := AddressLine(name, a) + rest;
    assert line == head + Hex(a) + [QUOTE, NEWLINE] + rest;
    assert line[|head|..|head| + 40] == Hex(a) && line[|head| + 40..|head| + 42] == [QUOTE, NEWLINE];
    assert line[|head| + 42..] == rest;
    if head <= s && |s| >= |head| + 42 {
      UnhexIff(s[|head|..|head| + 40], a);
      assert s == head + s[|head|..|head| + 40] + s[|head| + 40..|head| + 42] + s[|head| + 42..];
    }
  }

  function ReadOptionalLine(name: string, s: seq<byte>): (Option<uint64>, seq<byte>) {
    match ReadNumberLine(name, s)
    case None => (None, s)
    case Some(p) => (Some(p.0), p.1)
  }

  /** An optional line is told from the lines after it by the first letter of its name. */
  lemma {:induction false} ReadOptionalLineIs(name: string, n: Option<uint64>, rest: seq<byte>)
    requires name != "" && rest != [] && rest[0] != Ascii(name)[0]
    ensures ReadOptionalLine(name, OptionalLine(name, n) + rest) == (n, rest)
  {
    if n.Some? {
      ReadNumberLineIff(name, NumberLine(name, n.value) + rest, n.value, rest);
    } else {
      assert [] + rest == rest;
      var head := Ascii(name) + Ascii(" = ");
      assert head[0] == Ascii(name)[0];
    }
  }

  lemma {:induction false} ReadOptionalLineSound(name: string, s: seq<byte>)
    ensures var (n, rest) := ReadOptionalLine(name, s); s == OptionalLine(name, n) + rest
  {
    var r := ReadNumberLine(name, s);
    if r.Some? {
      ReadNumberLineIff(name, s, r.value.0, r.value.1);
    } else {
      assert [] + s == s;
    }
  }

  const HASH: byte := 35

  /** What is left of a text after its first line, or from its newline on. */
  function RestOfLine(s: seq<byte>): (r: seq<byte>)
    ensures |r| <= |s|
  {
    if s == [] || s[0] == NEWLINE then s else RestOfLine(s[1..])
  }

  /** Blank lines and comments. */
  predicate Trivia(s: seq<byte>)
    decreases |s|
  {
    s == [] || (s[0] == NEWLINE && Trivia(s[1..])) || (s[0] == HASH && Trivia(RestOfLine(s[1..])))
  }

  /** Every line, told from the text alone, is blank or starts with a hash sign. */
  ghost predicate BlankOrComment(s: seq<byte>) {
    forall i :: 0 <= i < |s| && LineStart(s, i) ==> s[i] == NEWLINE || s[i] == HASH
  }

  predicate LineStart(s: seq<byte>, i: nat)
    requires i < |s|
  {
    i == 0 || s[i - 1] == NEWLINE
  }

  lemma {:induction false} TriviaIff(s: seq<byte>)
    ensures Trivia(s) <==> BlankOrComment(s)
    decreases |s|
  {
    assert s != [] ==> LineStart(s, 0);
    if s != [] && s[0] == NEWLINE {
      TriviaIff(s[1..]);
      BlankAfter(s, 1);
    } else if s != [] && s[0] == HASH {
      var n := LineLength(s[1..]);
      assert forall j :: 0 < j < n + 1 ==> s[j] == s[1..][j - 1];
      assert s[1..][n..] == s[n + 1..];
      TriviaIff(RestOfLine(s[1..]));
      BlankAfter(s, n + 1);
    }
  }

  /** Where the first line ends. */
  lemma {:induction false} LineLength(s: seq<byte>) returns (n: nat)
    ensures n <= |s| && RestOfLine(s) == s[n..] && (forall i :: 0 <= i < n ==> s[i] != NEWLINE)
    ensures n < |s| ==> s[n] == NEWLINE
  {
    if s == [] || s[0] == NEWLINE {
      n := 0;
    } else {
      var m := LineLength(s[1..]);
      n := m + 1;
      assert forall i :: 0 < i < n ==> s[i] == s[1..][i - 1];
    }
  }

  lemma {:induction false} BlankAfter(s: seq<byte>, n: nat)
    requires 0 < n <= |s| && (s[0] == NEWLINE || s[0] == HASH)
    requires forall j :: 0 <= j < n - 1 ==> s[j] != NEWLINE
    requires n < |s| ==> s[n] == NEWLINE || s[n - 1] == NEWLINE
    ensures BlankOrComment(s) <==> BlankOrComment(s[n..])
  {
    forall i | 0 <= i < |s| - n ensures s[n..][i] == s[i + n] {
    }
    forall k | 0 <= k < |s| - n ensures LineStart(s[n..], k) <==> k == 0 || LineStart(s, k + n) {
    }
    if BlankOrComment(s[n..]) {
      forall i | 0 <= i < |s| && LineStart(s, i) ensures s[i] == NEWLINE || s[i] == HASH {
        if i >= n {
          assert LineStart(s[n..], i - n);
        }
      }
    }
    if BlankOrComment(s) {
      forall k | 0 <= k < |s| - n && LineStart(s[n..], k) ensures s[n..][k] == NEWLINE || s[n..][k] == HASH {
        assert k == 0 && s[n - 1] == NEWLINE ==> LineStart(s, n);
        assert k > 0 ==> LineStart(s, k + n);
      }
    }
  }

  /** Everything behind the addresses: the optional lines, the checkpoints, and nothing but trivia. */
  datatype Rest = Rest(
    homeDeploy: Option<uint64>, foreignDeploy: Option<uint64>,
    depositRelay: uint64, withdrawRelay: uint64, withdrawConfirm: uint64)

  function RestOf(db: Database): Rest {
    Rest(db.homeDeploy, db.foreignDeploy, db.depositRelay, db.withdrawRelay, db.withdrawConfirm)
  }

  function ReadCheckpoints(n: Names, home: Option<uint64>, foreign: Option<uint64>, s: seq<byte>): Option<Rest> {
    var a := ReadNumberLine(n.depositRelay, s);
    if a.None? then None else
    var b := ReadNumberLine(n.withdrawRelay, a.value.1);
    if b.None? then None else
    var c := ReadNumberLine(n.withdrawConfirm, b.value.1);
    if c.None? || !Trivia(c.value.1) then None else Some(Rest(home, foreign, a.value.0, b.value.0, c.value.0))
  }

  function ReadRest(n: Names, s: seq<byte>): Option<Rest> {
    var (home, t) := ReadOptionalLine(n.homeDeploy, s);
    var (foreign, u) := ReadOptionalLine(n.foreignDeploy, t);
    ReadCheckpoints(n, home, foreign, u)
  }

  function ReadAddresses(n: Names, s: seq<byte>): Option<(Bytes20, Bytes20, seq<byte>)> {
    var home := ReadAddressLine(n.home, s);
    if home.None? then None else
    var foreign := ReadAddressLine(n.foreign, home.value.1);
    if foreign.None? then None else Some((home.value.0, foreign.value.0, foreign.value.1))
  }

  function ParseAs(n: Names, file: seq<byte>): Option<Database> {
    var addresses := ReadAddresses(n, file);
    if addresses.None? then None
    else
      match ReadRest(n, addresses.value.2)
      case None => None
      case Some(r) =>
        Some(Database(addresses.value.0, addresses.value.1, r.homeDeploy, r.foreignDeploy,
                      r.depositRelay, r.withdrawRelay, r.withdrawConfirm))
  }

  /** `Database::load`, for files in the format printed here, followed by blank lines or comments. */
  function Parse(file: seq<byte>): Option<Database> {
    ParseAs(NAMES, file)
  }

  /** The names of the optional lines differ from the following ones in their first letter. */
  predicate Telling(n: Names) {
    && n.homeDeploy != "" && n.foreignDeploy != "" && n.depositRelay != ""
    && Ascii(n.homeDeploy)[0] != Ascii(n.foreignDeploy)[0]
    && Ascii(n.depositRelay)[0] != Ascii(n.homeDeploy)[0]
    && Ascii(n.depositRelay)[0] != Ascii(n.foreignDeploy)[0]
  }

  lemma {:induction false} CheckpointsPrinted(n: Names, db: Database, tail: seq<byte>)
    ensures ReadCheckpoints(n, db.homeDeploy, db.foreignDeploy, Checkpoints(n, db) + tail) ==
            if Trivia(tail) then Some(RestOf(db)) else None
  {
    var c := NumberLine(n.withdrawConfirm, db.withdrawConfirm) + tail;
    var b := NumberLine(n.withdrawRelay, db.withdrawRelay) + c;
    var a := NumberLine(n.depositRelay, db.depositRelay) + b;
    assert Checkpoints(n, db) + tail == a;
    ReadNumberLineIff(n.depositRelay, a, db.depositRelay, b);
    ReadNumberLineIff(n.withdrawRelay, b, db.withdrawRelay, c);
    ReadNumberLineIff(n.withdrawConfirm, c, db.withdrawConfirm, tail);
  }

  lemma {:induction false} FirstLetter(name: string, v: uint64, rest: seq<byte>)
    requires name != ""
    ensures NumberLine(name, v) + rest != [] && (NumberLine(name, v) + rest)[0] == Ascii(name)[0]
  {
  }

  lemma {:induction false} RestPrinted(n: Names, db: Database, tail: seq<byte>)
    requires Telling(n)
    ensures ReadRest(n, Deployments(n, db) + tail) == if Trivia(tail) then Some(RestOf(db)) else None
  {
    var u := Checkpoints(n, db) + tail;
    var t := OptionalLine(n.foreignDeploy, db.foreignDeploy) + u;
    assert Deployments(n, db) + tail == OptionalLine(n.homeDeploy, db.homeDeploy) + t;
    assert u[0] == Ascii(n.depositRelay)[0];
    if db.foreignDeploy.Some? {
      FirstLetter(n.foreignDeploy, db.foreignDeploy.value, u);
    } else {
      assert t == u;
    }
    ReadOptionalLineIs(n.homeDeploy, db.homeDeploy, t);
    ReadOptionalLineIs(n.foreignDeploy, db.foreignDeploy, u);
    CheckpointsPrinted(n, db, tail);
  }

  lemma {:induction false} AddressesIff(n: Names, s: seq<byte>, home: Bytes20, foreign: Bytes20, rest: seq<byte>)
    ensures ReadAddresses(n, s) == Some((home, foreign, rest)) <==>
            s == AddressLine(n.home, home) + (AddressLine(n.foreign, foreign) + rest)
  {
    var next := AddressLine(n.foreign, foreign) + rest;
    ReadAddressLineIff(n.home, s, home, next);
    ReadAddressLineIff(n.foreign, next, foreign, rest);
    var first := ReadAddressLine(n.home, s);
    if first.Some? {
      ReadAddressLineIff(n.home, s, first.value.0, first.value.1);
      ReadAddressLineIff(n.foreign, first.value.1, foreign, rest);
    }
  }

  /** Completeness: what was printed is loaded, if only trivia follow. */
  lemma {:induction false} PrintedIsRead(n: Names, db: Database, tail: seq<byte>)
    requires Telling(n)
    ensures ParseAs(n, PrintAs(n, db) + tail) == if Trivia(tail) then Some(db) else None
  {
    Reassociate(AddressLine(n.home, db.home), AddressLine(n.foreign, db.foreign), Deployments(n, db), tail);
    AddressesIff(n, PrintAs(n, db) + tail, db.home, db.foreign, Deployments(n, db) + tail);
    RestPrinted(n, db, tail);
  }

  lemma {:induction false} CheckpointsSound(n: Names, home: Option<uint64>, foreign: Option<uint64>, db: Database, s: seq<byte>)
    returns (tail: seq<byte>)
    ensures ReadCheckpoints(n, home, foreign, s) == Some(RestOf(db)) ==> Trivia(tail) && s == Checkpoints(n, db) + tail
  {
    tail := [];
    if ReadCheckpoints(n, home, foreign, s) == Some(RestOf(db)) {
      var a := ReadNumberLine(n.depositRelay, s).value;
      var b := ReadNumberLine(n.withdrawRelay, a.1).value;
      var c := ReadNumberLine(n.withdrawConfirm, b.1).value;
      tail := c.1;
      ReadNumberLineIff(n.depositRelay, s, a.0, a.1);
      ReadNumberLineIff(n.withdrawRelay, a.1, b.0, b.1);
      ReadNumberLineIff(n.withdrawConfirm, b.1, c.0, c.1);
      Reassociate(NumberLine(n.depositRelay, db.depositRelay), NumberLine(n.withdrawRelay, db.withdrawRelay),
                  NumberLine(n.withdrawConfirm, db.withdrawConfirm), tail);
    }
  }

  lemma {:induction false} Reassociate(a: seq<byte>, b: seq<byte>, c: seq<byte>, d: seq<byte>)
    ensures a + (b + (c + d)) == a + (b + c) + d
  {
  }

  lemma {:induction false} RestSound(n: Names, db: Database, s: seq<byte>) returns (tail: seq<byte>)
    ensures ReadRest(n, s) == Some(RestOf(db)) ==> Trivia(tail) && s == Deployments(n, db) + tail
  {
    var (home, t) := ReadOptionalLine(n.homeDeploy, s);
    var (foreign, u) := ReadOptionalLine(n.foreignDeploy, t);
    ReadOptionalLineSound(n.homeDeploy, s);
    ReadOptionalLineSound(n.foreignDeploy, t);
    tail := CheckpointsSound(n, home, foreign, db, u);
    Reassociate(OptionalLine(n.homeDeploy, home), OptionalLine(n.foreignDeploy, foreign), Checkpoints(n, db), tail);
  }

  /** Soundness: what is loaded is what the file starts with, and only trivia follow. */
  lemma {:induction false} ReadIsPrinted(n: Names, file: seq<byte>, db: Database) returns (tail: seq<byte>)
    ensures ParseAs(n, file) == Some(db) ==> Trivia(tail) && file == PrintAs(n, db) + tail
  {
    tail := [];
    if ParseAs(n, file) == Some(db) {
      var rest := ReadAddresses(n, file).value.2;
      AddressesIff(n, file, db.home, db.foreign, rest);
      tail := RestSound(n, db, rest);
      Reassociate(AddressLine(n.home, db.home), AddressLine(n.foreign, db.foreign), Deployments(n, db), tail);
    }
  }

  lemma {:induction false} ParseAsIff(n: Names, file: seq<byte>, db: Database)
    requires Telling(n)
    ensures ParseAs(n, file) == Some(db) <==> exists tail :: Trivia(tail) && file == PrintAs(n, db) + tail
  {
    if ParseAs(n, file) == Some(db) {
      var tail := ReadIsPrinted(n, file, db);
    }
    forall tail | file == PrintAs(n, db) + tail && Trivia(tail) ensures ParseAs(n, file) == Some(db) {
      PrintedIsRead(n, db, tail);
    }
  }

  /** The file is this database as printed, followed by trivia. */
  ghost predicate IsFileOf(file: seq<byte>, db: Database) {
    exists tail :: Trivia(tail) && file == Print(db) + tail
  }

  /** The parser accepts a file as a database exactly when it is that database as printed, followed by trivia. */
  lemma {:induction false} ParseIff(file: seq<byte>, db: Database)
    ensures Parse(file) == Some(db) <==> IsFileOf(file, db)
  {
    ParseAsIff(NAMES, file, db);
  }

  lemma {:induction false} PrintedIsParsed(db: Database, tail: seq<byte>)
    ensures Parse(Print(db) + tail) == if Trivia(tail) then Some(db) else None
  {
    PrintedIsRead(NAMES, db, tail);
  }

  lemma {:induction false} PrintAsInjective(n: Names, a: Database, b: Database, tail: seq<byte>, rest: seq<byte>)
    requires Telling(n) && PrintAs(n, a) + tail == PrintAs(n, b) + rest && Trivia(tail)
    ensures a == b && tail == rest
  {
    PrintedIsRead(n, a, tail);
    PrintedIsRead(n, b, rest);
    var p := PrintAs(n, a);
    assert tail == (p + tail)[|p|..] && rest == (p + rest)[|p|..];
  }

  /** The file determines the database, whatever follows it. */
  lemma {:induction false} PrintInjective(a: Database, b: Database, tail: seq<byte>, rest: seq<byte>)
    requires Print(a) + tail == Print(b) + rest && Trivia(tail)
    ensures a == b && tail == rest
  {
    PrintAsInjective(NAMES, a, b, tail, rest);
  }

  /** The database a file holds, if it holds one: what loading it gives, whatever the parser does. */
  ghost function Load(file: seq<byte>): (r: Option<Database>)
    ensures r.Some? ==> IsFileOf(file, r.value)
    ensures r.None? ==> forall db :: !IsFileOf(file, db)
  {
    if exists db :: IsFileOf(file, db) then
      var db :| IsFileOf(file, db);
      Some(db)
    else None
  }

  /** The parser computes it. */
  lemma {:induction false} ParseIsLoad(file: seq<byte>)
    ensures Parse(file) == Load(file)
  {
    if Load(file).Some? {
      ParseIff(file, Load(file).value);
    } else if Parse(file).Some? {
      ParseIff(file, Parse(file).value);
      assert false;
    }
  }

  lemma {:induction false} LoadPrinted(db: Database)
    ensures Load(Print(db)) == Some(db)
  {
    PrintedIsParsed(db, []);
    assert Print(db) + [] == Print(db);
    ParseIsLoad(Print(db));
  }

  /* Files with something behind the database. */

  function Drop(s: seq<byte>, n: nat): seq<byte> {
    if n <= |s| then s[n..] else []
  }

  /** The file is the text and what is left of a tail that followed a text of `base` octets. */
  predicate Follows(base: nat, tail: seq<byte>, text: seq<byte>, file: seq<byte>) {
    base <= |text| && file == text + Drop(tail, |text| - base)
  }

  /** Writing a longer text eats more of the tail. */
  lemma {:induction false} OverwriteTail(base: nat, tail: seq<byte>, was: seq<byte>, text: seq<byte>, file: seq<byte>)
    requires Follows(base, tail, was, file) && |was| <= |text|
    ensures Follows(base, tail, text, Overwrite(file, text))
  {
  }

  /** Every save that does not decrease a checkpoint keeps `holds`. */
  ghost predicate KeptBySaves(holds: (Database, seq<byte>) -> bool, render: Database -> seq<byte>) {
    forall db, file, check {:trigger holds(db, file), Record(db, check)} ::
      holds(db, file) && CheckpointOf(db, check) <= check.block ==>
        holds(Record(db, check), Overwrite(file, render(Record(db, check))))
  }

  lemma {:induction false} SavesKeep(
    holds: (Database, seq<byte>) -> bool, render: Database -> seq<byte>, s: Saved, checks: seq<Checked>)
    requires KeptBySaves(holds, render) && NeverDecreases(s.db, checks) && holds(s.db, s.file)
    ensures var end := SavesBy(render, s, checks); holds(end.db, end.file)
    decreases |checks|
  {
    if checks != [] {
      var db := Record(s.db, checks[0]);
      SavesKeep(holds, render, Saved(db, Overwrite(s.file, render(db))), checks[1..]);
    }
  }

  lemma {:induction false} SavesKeepTail(
    render: Database -> seq<byte>, base: nat, tail: seq<byte>, s: Saved, checks: seq<Checked>)
    requires Grows(render) && Follows(base, tail, render(s.db), s.file) && NeverDecreases(s.db, checks)
    ensures var end := SavesBy(render, s, checks); Follows(base, tail, render(end.db), end.file)
  {
    var holds := (db, file) => Follows(base, tail, render(db), file);
    forall db, file, check | holds(db, file) && CheckpointOf(db, check) <= check.block
      ensures holds(Record(db, check), Overwrite(file, render(Record(db, check))))
    {
      OverwriteTail(base, tail, render(db), render(Record(db, check)), file);
    }
    SavesKeep(holds, render, s, checks);
  }

  lemma {:induction false} TailOf(base: nat, tail: seq<byte>, text: seq<byte>, file: seq<byte>)
    requires Follows(base, tail, text, file)
    ensures file == text <==> |tail| <= |text| - base
  {
  }

  /** Such a file can be loaded precisely when what is left of the tail is still trivia. */
  lemma {:induction false} ParseFollowed(base: nat, tail: seq<byte>, db: Database, file: seq<byte>)
    requires Follows(base, tail, Print(db), file)
    ensures Parse(file) == if Trivia(Drop(tail, |Print(db)| - base)) then Some(db) else None
  {
    PrintedIsParsed(db, Drop(tail, |Print(db)| - base));
  }

  /**
   * Over any run of saves whose checkpoints never decrease, the text only grows over what followed the
   * database in the file: of that tail, as many octets are gone as the database has grown by. So the
   * file is exact precisely when the tail was no longer than that.
   */
  lemma {:induction false} SavesEatTail(s: Saved, tail: seq<byte>, checks: seq<Checked>)
    requires s.file == Print(s.db) + tail && NeverDecreases(s.db, checks)
    ensures var end, base := Saves(s, checks), |Print(s.db)|;
            && Follows(base, tail, Print(end.db), end.file)
            && (end.file == Print(end.db) <==> |tail| <= |Print(end.db)| - base)
  {
    PrintGrowsAlways();
    SavesKeepTail(Print, |Print(s.db)|, tail, s, checks);
    var end := Saves(s, checks);
    TailOf(|Print(s.db)|, tail, Print(end.db), end.file);
  }

  lemma {:induction false} OneDigitMore(n: Names, db: Database)
    requires db.withdrawConfirm == 9
    ensures |PrintAs(n, db.(withdrawConfirm := 10))| == |PrintAs(n, db)| + 1
  {
    assert Decimal(1) == [49] && Decimal(10) == [49, 48] && Decimal(9) == [57];
  }

  /**
   * A database file with a comment at its end, and one more block checked: the save cuts off the front of
   * the comment only, and the file that could be loaded cannot be loaded any more.
   */
  lemma {:induction false} CommentBreaksFile(db: Database, comment: byte)
    requires db.withdrawConfirm == 9 && comment != NEWLINE && comment != HASH
    ensures var file := Print(db) + [HASH, comment, NEWLINE];
            var saved := Overwrite(file, Print(Record(db, WithdrawConfirm(10))));
            && Parse(file) == Some(db)
            && saved == Print(Record(db, WithdrawConfirm(10))) + [comment, NEWLINE]
            && Parse(saved) == None
  {
    var tail, after := [HASH, comment, NEWLINE], Record(db, WithdrawConfirm(10));
    CommentIsTrivia(comment);
    OneDigitMore(NAMES, db);
    OverwriteTail(|Print(db)|, tail, Print(db), Print(after), Print(db) + tail);
    PrintedIsParsed(db, tail);
    PrintedIsParsed(after, [comment, NEWLINE]);
  }

  lemma {:induction false} CommentIsTrivia(c: byte)
    requires c != NEWLINE && c != HASH
    ensures Trivia([HASH, c, NEWLINE]) && !Trivia([c, NEWLINE])
    ensures [HASH, c, NEWLINE][1..] == [c, NEWLINE]
  {
    assert [HASH, c, NEWLINE][1..] == [c, NEWLINE] && [c, NEWLINE][1..] == [NEWLINE];
    assert RestOfLine([NEWLINE]) == [NEWLINE];
    assert RestOfLine([c, NEWLINE]) == [NEWLINE];
    assert [NEWLINE][1..] == [];
    assert Trivia([NEWLINE]);
  }
}
