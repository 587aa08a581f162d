/**
 * The wallet report of wallet_scoring.py: `calculate_score` on one address
 * and `run_wallet_check`, which pulls addresses out of the generator's TXT
 * and JSON files and scores them. Directory listing, file reading and
 * printing are outside the model: the files arrive as names and decoded
 * text, and `json.load` is the parameter `parse` (`None` for a
 * `JSONDecodeError`). Floats are reals.
 */
module WalletScoring {
  import opened Wrappers
  import opened Strings

  /** What `calculate_score` returns: the score and both zero counts. */
  datatype Score = Score(score: real, totalZeroes: nat, leadingZeroes: nat)

  /** Python `s.lstrip(c)` for a single character `c`. */
  function LStripChar(s: string, c: char): (r: string)
    ensures |r| <= |s| && r == s[|s| - |r|..]
    ensures r == [] || r[0] != c
  {
    if |s| > 0 && s[0] == c then LStripChar(s[1..], c) else s
  }

  /** `len(addr) - len(addr.lstrip("0"))`: the number of leading '0's. */
  function LeadingZeroes(addr: string): (n: nat)
    ensures n <= |addr|
  {
    |addr| - |LStripChar(addr, '0')|
  }

  /** The score for a zero count: the count over 41, as a percentage. */
  function ZeroScore(totalZeroes: nat): real {
    (totalZeroes as real / 41.0) * 100.0
  }

  /** `calculate_score(wallet_address)` (wallet_scoring.py:7-23); `None` for the `ValueError`. */
  function CalculateScore(walletAddress: string): (r: Option<Score>)
    ensures r.None? <==> |walletAddress| != 42 || !StartsWith(Lower(walletAddress), "0x")
  {
    if |walletAddress| != 42 || !StartsWith(Lower(walletAddress), "0x") then None
    else
      var addr := walletAddress[2..];
      var totalZeroes := Count(addr, '0');
      var leadingZeroes := LeadingZeroes(addr);
      Some(Score(ZeroScore(totalZeroes), totalZeroes, leadingZeroes))
  }

  /** The leading '0's are among all the '0's. */
  lemma {:induction false} LeadingWithinTotal(s: string)
    ensures LeadingZeroes(s) <= Count(s, '0')
    decreases |s|
  {
    if |s| > 0 && s[0] == '0' {
      LeadingWithinTotal(s[1..]);
      CountFront(s);
    }
  }

  /** Counting from the front: the first character and then the rest. */
  lemma {:induction false} CountFront(s: string)
    requires |s| > 0
    ensures Count(s, '0') == (if s[0] == '0' then 1 else 0) + Count(s[1..], '0')
    decreases |s|
  {
    if |s| > 1 {
      var n := |s| - 1;
      CountFront(s[..n]);
      assert s[..n][1..] == s[1..][..n - 1];
      assert s[..n][0] == s[0];
    }
  }

  /**
   * A score is the total count of '0' over 41, as a percentage, with
   * 0 <= leading <= total <= 40 over the 40 characters after the prefix; so
   * it always stays below 100, which the "41 zeroes" of the comment at
   * wallet_scoring.py:20 would need.
   */
  lemma ScoreBounds(walletAddress: string)
    requires CalculateScore(walletAddress).Some?
    ensures var s := CalculateScore(walletAddress).value;
      && s.leadingZeroes <= s.totalZeroes <= 40
      && s.totalZeroes == Count(walletAddress[2..], '0')
      && s.score == ZeroScore(s.totalZeroes)
      && 0.0 <= s.score < 100.0
  {
    var addr := walletAddress[2..];
    LeadingWithinTotal(addr);
    ZeroScoreBelowHundred(Count(addr, '0'));
  }

  lemma ZeroScoreBelowHundred(t: nat)
    requires t <= 40
    ensures 0.0 <= ZeroScore(t) < 100.0
  {
  }

  /** More zeros never score less. */
  lemma ZeroScoreMonotone(t1: nat, t2: nat)
    requires t1 <= t2
    ensures ZeroScore(t1) <= ZeroScore(t2)
  {
  }

  /** The prefix test ignores case: "0X" is accepted as well as "0x". */
  lemma UpperPrefixAccepted(rest: string)
    requires |rest| == 40
    ensures CalculateScore("0X" + rest).Some?
    ensures CalculateScore("0x" + rest).Some?
  {
    assert Lower("0X" + rest)[..2] == "0x";
    assert Lower("0x" + rest)[..2] == "0x";
  }

  /** The best address, all forty digits '0': 40 zeros, all leading, and a score of 4000/41. */
  lemma AllZeroScore()
    ensures CalculateScore("0x" + seq(40, _ => '0')) == Some(Score(4000.0 / 41.0, 40, 40))
  {
    var w := "0x" + seq(40, _ => '0');
    assert Lower(w)[..2] == "0x";
    var addr := w[2..];
    assert addr == seq(40, _ => '0');
    ZerosCounted(40);
    ZerosStripped(40);
  }

  lemma {:induction false} ZerosCounted(n: nat)
    ensures Count(seq(n, _ => '0'), '0') == n
  {
    if n > 0 {
      assert seq(n, _ => '0')[..n - 1] == seq(n - 1, _ => '0');
      ZerosCounted(n - 1);
    }
  }

  lemma {:induction false} ZerosStripped(n: nat)
    ensures LStripChar(seq(n, _ => '0'), '0') == []
  {
    if n > 0 {
      assert seq(n, _ => '0')[1..] == seq(n - 1, _ => '0');
      ZerosStripped(n - 1);
    }
  }

  // ---- TXT files -------------------------------------------------------

  /** Python `s.split(sep)[1]` for a separator that occurs in `s`: the text between its first and second occurrence. */
  function SecondField(s: string, sep: string): string
    requires |sep| > 0 && FindFrom(s, sep, 0).Some?
  {
    var rest := s[FindFrom(s, sep, 0).value + |sep|..];
    match FindFrom(rest, sep, 0)
    case None => rest
    case Some(j) => rest[..j]
  }

  /** One value per line that begins with "Address:" (the list comprehension of wallet_scoring.py:66-70). */
  function AddressLines(lines: seq<string>): seq<string>
  {
    if lines == [] then []
    else
      var line := lines[|lines| - 1];
      AddressLines(lines[..|lines| - 1])
      + if StartsWith(line, "Address:") then
          assert OccursAt(line, "Address:", 0);
          [Strip(SecondField(line, "Address:"))]
        else []
  }

  /** `content.strip().split("\n")`, then the address lines. */
  function TxtAddresses(content: string): seq<string> {
    AddressLines(Split(Strip(content), '\n'))
  }

  /** Lines joined by newlines, without a final one. */
  function Body(lines: seq<string>): string
    requires |lines| > 0
  {
    if |lines| == 1 then lines[0] else lines[0] + "\n" + Body(lines[1..])
  }

  /** The four lines the Python generator writes for a wallet, each ended by a newline (src/main.py:175-179). */
  function WalletLines(address: string, privateKey: string, attempts: string, rarity: string): seq<string> {
    ["Address: " + address, "Private Key: " + privateKey, "Attempts: " + attempts, "Rarity Score: " + rarity]
  }

  function WalletFile(address: string, privateKey: string, attempts: string, rarity: string): string {
    Body(WalletLines(address, privateKey, attempts, rarity)) + "\n"
  }

  predicate NoNewline(s: string) {
    forall i :: 0 <= i < |s| ==> s[i] != '\n'
  }

  /** Characters an address is written in: base16 digits and the 'x' of the prefix. */
  predicate AddressText(s: string) {
    forall i :: 0 <= i < |s| ==> IsHexDigit(s[i]) || s[i] == 'x' || s[i] == 'X'
  }

  /** A one-character pattern occurs exactly where that character stands. */
  lemma OccursOne(s: string, c: char, j: nat)
    ensures OccursAt(s, [c], j) <==> j < |s| && s[j] == c
  {
    if j < |s| {
      assert s[j..j + 1] == [s[j]];
    }
  }

  /** Splitting at a first newline. */
  lemma SplitAtFirst(x: string, y: string)
    requires NoNewline(x)
    ensures Split(x + "\n" + y, '\n') == [x] + Split(y, '\n')
  {
    var s := x + "\n" + y;
    OccursOne(s, '\n', |x|);
    forall j | 0 <= j < |x| ensures !OccursAt(s, "\n", j) {
      OccursOne(s, '\n', j);
    }
    assert FindFrom(s, "\n", 0) == Some(|x|);
    assert s[..|x|] == x;
    assert s[|x| + 1..] == y;
  }

  lemma SplitNone(x: string)
    requires NoNewline(x)
    ensures Split(x, '\n') == [x]
  {
    forall j: nat ensures !OccursAt(x, "\n", j) {
      OccursOne(x, '\n', j);
    }
    assert FindFrom(x, "\n", 0).None?;
  }

  /** Splitting joined lines that hold no newline gives the lines back. */
  lemma {:induction false} SplitBody(lines: seq<string>)
    requires |lines| > 0 && forall k :: 0 <= k < |lines| ==> NoNewline(lines[k])
    ensures Split(Body(lines), '\n') == lines
  {
    if |lines| == 1 {
      SplitNone(lines[0]);
    } else {
      SplitAtFirst(lines[0], Body(lines[1..]));
      SplitBody(lines[1..]);
    }
  }

  /** Joined lines begin with the first line and end with the last. */
  lemma {:induction false} BodyEnds(lines: seq<string>)
    requires |lines| > 0 && forall k :: 0 <= k < |lines| ==> |lines[k]| > 0
    ensures |Body(lines)| > 0
    ensures Body(lines)[0] == lines[0][0]
    ensures Body(lines)[|Body(lines)| - 1] == lines[|lines| - 1][|lines[|lines| - 1]| - 1]
  {
    if |lines| > 1 {
      BodyEnds(lines[1..]);
    }
  }

  /** Text without a ':' holds no "Address:". */
  lemma NoColonNoTag(s: string)
    requires forall i :: 0 <= i < |s| ==> s[i] != ':'
    ensures FindFrom(s, "Address:", 0).None?
  {
    forall j: nat ensures !OccursAt(s, "Address:", j) {
      if j + 8 <= |s| {
        assert s[j..j + 8][7] == s[j + 7];
      }
    }
  }

  /** Stripping a blank and address text gives the address text. */
  lemma StripAddress(a: string)
    requires AddressText(a)
    ensures Strip(" " + a) == a
  {
    var s := " " + a;
    assert s[1..] == a;
    if |a| > 0 {
      assert !IsSpace(a[0]);
      assert LeadingSpace(a) == 0;
    }
    assert LStrip(s) == a;
    if |a| > 0 {
      assert !IsSpace(a[|a| - 1]);
    }
  }

  /** The value of the first line of a wallet file is its address. */
  lemma AddressLineValue(address: string)
    requires AddressText(address)
    ensures StartsWith("Address: " + address, "Address:")
    ensures FindFrom("Address: " + address, "Address:", 0) == Some(0)
    ensures Strip(SecondField("Address: " + address, "Address:")) == address
  {
    var l1 := "Address: " + address;
    assert l1[..8] == "Address:";
    assert OccursAt(l1, "Address:", 0);
    assert l1[8..] == " " + address;
    NoColonNoTag(" " + address);
    StripAddress(address);
  }

  /** A text that begins and ends with non-blanks loses only a final newline to `strip()`. */
  lemma StripFinalNewline(body: string)
    requires |body| > 0 && !IsSpace(body[0]) && !IsSpace(body[|body| - 1])
    ensures Strip(body + "\n") == body
  {
    var content := body + "\n";
    assert content[0] == body[0];
    assert LeadingSpace(content) == 0;
    assert LStrip(content) == content;
    assert content[..|content| - 1] == body;
    assert RStrip(content) == RStrip(body);
  }

  /** Lines of which only the first begins with "Address:" yield that line's value alone. */
  lemma {:induction false} OnlyFirstTagged(lines: seq<string>, a: string)
    requires |lines| > 0 && StartsWith(lines[0], "Address:")
    requires FindFrom(lines[0], "Address:", 0).Some? && Strip(SecondField(lines[0], "Address:")) == a
    requires forall k :: 1 <= k < |lines| ==> !StartsWith(lines[k], "Address:")
    ensures AddressLines(lines) == [a]
  {
    if |lines| == 1 {
      assert lines[..0] == [];
    } else {
      OnlyFirstTagged(lines[..|lines| - 1], a);
    }
  }

  /** In a wallet file only the first line carries the "Address:" tag, and its value is the address. */
  lemma WalletLinesTagged(address: string, privateKey: string, attempts: string, rarity: string)
    requires AddressText(address)
    ensures var lines := WalletLines(address, privateKey, attempts, rarity);
      && StartsWith(lines[0], "Address:")
      && FindFrom(lines[0], "Address:", 0).Some? && Strip(SecondField(lines[0], "Address:")) == address
      && forall k :: 1 <= k < |lines| ==> !StartsWith(lines[k], "Address:")
  {
    var lines := WalletLines(address, privateKey, attempts, rarity);
    AddressLineValue(address);
    assert !StartsWith(lines[1], "Address:") by { assert lines[1][0] == 'P'; }
    assert !StartsWith(lines[2], "Address:") by { assert lines[2][1] == 't'; }
    assert !StartsWith(lines[3], "Address:") by { assert lines[3][0] == 'R'; }
  }

  /** The lines of a wallet file are non-empty and hold no newline; the last ends in a non-blank. */
  lemma WalletLinesPlain(address: string, privateKey: string, attempts: string, rarity: string)
    requires AddressText(address)
    requires NoNewline(privateKey) && NoNewline(attempts) && NoNewline(rarity)
    requires rarity != [] && !IsSpace(rarity[|rarity| - 1])
    ensures var lines := WalletLines(address, privateKey, attempts, rarity);
      && (forall k :: 0 <= k < |lines| ==> |lines[k]| > 0 && NoNewline(lines[k]))
      && !IsSpace(lines[0][0]) && !IsSpace(lines[3][|lines[3]| - 1])
  {
    var lines := WalletLines(address, privateKey, attempts, rarity);
    assert NoNewline(lines[0]) by {
      forall i | 0 <= i < |lines[0]| ensures lines[0][i] != '\n' {
        if i >= 9 {
          assert lines[0][i] == address[i - 9];
        }
      }
    }
    assert NoNewline(lines[1]) by {
      forall i | 0 <= i < |lines[1]| ensures lines[1][i] != '\n' {
        if i >= 13 {
          assert lines[1][i] == privateKey[i - 13];
        }
      }
    }
    assert NoNewline(lines[2]) by {
      forall i | 0 <= i < |lines[2]| ensures lines[2][i] != '\n' {
        if i >= 10 {
          assert lines[2][i] == attempts[i - 10];
        }
      }
    }
    assert NoNewline(lines[3]) by {
      forall i | 0 <= i < |lines[3]| ensures lines[3][i] != '\n' {
        if i >= 14 {
          assert lines[3][i] == rarity[i - 14];
        }
      }
    }
  }

  /**
   * Round trip: the TXT file the Python generator writes for an address
   * yields that address and nothing else, whatever the key, attempt and
   * rarity texts on the other lines.
   */
  lemma TxtRoundTrip(address: string, privateKey: string, attempts: string, rarity: string)
    requires AddressText(address)
    requires NoNewline(privateKey) && NoNewline(attempts) && NoNewline(rarity)
    requires rarity != [] && !IsSpace(rarity[|rarity| - 1])
    ensures TxtAddresses(WalletFile(address, privateKey, attempts, rarity)) == [address]
  {
    var lines := WalletLines(address, privateKey, attempts, rarity);
    WalletLinesPlain(address, privateKey, attempts, rarity);
    BodyEnds(lines);
    StripFinalNewline(Body(lines));
    SplitBody(lines);
    WalletLinesTagged(address, privateKey, attempts, rarity);
    OnlyFirstTagged(lines, address);
  }

  // ---- JSON files and the whole check ------------------------------------

  /** A value `json.load` can return. */
  datatype Json =
    | JNull
    | JBool(b: bool)
    | JNumber(n: real)
    | JString(s: string)
    | JArray(items: seq<Json>)
    | JObject(fields: map<string, Json>)

  /** Python truthiness of a JSON value, the test `if wallet_address:`. */
  predicate Truthy(v: Json) {
    match v
    case JNull => false
    case JBool(b) => b
    case JNumber(n) => n != 0.0
    case JString(s) => |s| > 0
    case JArray(items) => |items| > 0
    case JObject(fields) => |fields| > 0
  }

  /** `d.get("address")`: the value under "address", `None` (JSON null) when absent. */
  function GetAddress(fields: map<string, Json>): Json {
    if "address" in fields then fields["address"] else JNull
  }

  /** `[item.get("address") for item in data if isinstance(item, dict)]`. */
  function ObjectAddresses(items: seq<Json>): (r: seq<Json>)
    ensures |r| <= |items|
  {
    if items == [] then []
    else
      var item := items[|items| - 1];
      ObjectAddresses(items[..|items| - 1])
      + if item.JObject? then [GetAddress(item.fields)] else []
  }

  /** The addresses of a parsed JSON file; `None` for "Unexpected JSON structure". */
  function JsonAddresses(data: Json): (r: Option<seq<Json>>)
    ensures r.Some? <==> data.JObject? || data.JArray?
  {
    match data
    case JObject(fields) => Some([GetAddress(fields)])
    case JArray(items) => Some(ObjectAddresses(items))
    case _ => None
  }

  /** A file of the `gen` directory: its name and its text, `None` when it is not valid UTF-8. */
  datatype GenFile = GenFile(name: string, content: Option<string>)

  /**
   * The address values one file contributes, or `None` when the file is
   * passed over: a name that is neither .txt nor .json, a decoding error, a
   * JSON parse error, or a JSON value that is neither a dict nor a list.
   * `parse` stands for `json.load`.
   */
  function FileValues(f: GenFile, parse: string -> Option<Json>): Option<seq<Json>> {
    if !(EndsWith(f.name, ".txt") || EndsWith(f.name, ".json")) || f.content.None? then None
    else if EndsWith(f.name, ".json") then
      match parse(f.content.value)
      case None => None
      case Some(data) => JsonAddresses(data)
    else Some(AsJson(TxtAddresses(f.content.value)))
  }

  /** The strings of a TXT file as JSON strings, so both kinds of file feed the same loop. */
  function AsJson(ss: seq<string>): (r: seq<Json>)
    ensures |r| == |ss| && forall i :: 0 <= i < |ss| ==> r[i] == JString(ss[i])
  {
    seq(|ss|, i requires 0 <= i < |ss| => JString(ss[i]))
  }

  /** An entry of `matched_wallets`. */
  datatype Matched = Matched(address: string, score: real)

  /** What happens to one address value. */
  datatype Verdict = Skip | Add(wallet: Matched) | Crash

  /**
   * One turn of the loop at wallet_scoring.py:72-88. A falsy value is
   * skipped. A string is scored, or skipped with the `ValueError` message.
   * A list or dict reaches `calculate_score` too: `len` works on it, so
   * one whose length is not 42 raises the `ValueError` and is skipped, and
   * one of length 42 fails on `.lower()` with an `AttributeError`. A true
   * or a non-zero number fails on `len` with a `TypeError`. Neither of
   * those errors is caught, so they end the check.
   */
  function Judge(v: Json): (r: Verdict)
    ensures r.Add? ==>
              v.JString? && CalculateScore(v.s).Some? && r.wallet == Matched(v.s, CalculateScore(v.s).value.score)
    ensures v.JString? && |v.s| > 0 && CalculateScore(v.s).Some? ==> r.Add?
    ensures r.Crash? <==> Truthy(v) && (v.JBool? || v.JNumber? || (v.JArray? && |v.items| == 42) || (v.JObject? && |v.fields| == 42))
  {
    if !Truthy(v) then Skip
    else
      match v
      case JString(s) =>
        (match CalculateScore(s)
         case None => Skip
         case Some(score) => Add(Matched(s, score.score)))
      case JArray(items) => if |items| != 42 then Skip else Crash
      case JObject(fields) => if |fields| != 42 then Skip else Crash
      case _ => Crash
  }

  /** The state of `run_wallet_check`: the wallets matched so far, or ended by an uncaught error. */
  datatype Check = Running(matched: seq<Matched>) | Crashed

  function Step(c: Check, v: Json): Check {
    match c
    case Crashed => Crashed
    case Running(matched) =>
      (match Judge(v)
       case Skip => c
       case Add(w) => Running(matched + [w])
       case Crash => Crashed)
  }

  /** The values of one file fed through the loop in order. */
  function Feed(c: Check, values: seq<Json>): Check {
    if values == [] then c else Step(Feed(c, values[..|values| - 1]), values[|values| - 1])
  }

  /** One file: passed over, or its values fed through the loop. */
  function FeedFile(c: Check, values: Option<seq<Json>>): Check {
    match values
    case None => c
    case Some(vs) => Feed(c, vs)
  }

  /** The files in listing order, each giving its values through `values`. */
  function Run(files: seq<GenFile>, values: GenFile -> Option<seq<Json>>): Check {
    if files == [] then Running([])
    else FeedFile(Run(files[..|files| - 1], values), values(files[|files| - 1]))
  }

  /** `FileValues` with the parser fixed. */
  function ValuesOf(parse: string -> Option<Json>): (values: GenFile -> Option<seq<Json>>) {
    (f: GenFile) => FileValues(f, parse)
  }

  /** `run_wallet_check` over the files in listing order, before the plot. */
  function WalletCheck(files: seq<GenFile>, parse: string -> Option<Json>): Check {
    Run(files, ValuesOf(parse))
  }

  /** The loop at wallet_scoring.py:72-88 over the values of one file; an uncaught error ends it. */
  method FeedValues(matched: seq<Matched>, values: seq<Json>) returns (r: Check)
    ensures r == Feed(Running(matched), values)
  {
    var matchedWallets := matched;
    for j := 0 to |values|
      invariant Feed(Running(matched), values[..j]) == Running(matchedWallets)
    {
      assert values[..j + 1][..j] == values[..j];
      var verdict := Judge(values[j]);
      match verdict
      case Skip =>
      case Add(w) =>
        matchedWallets := matchedWallets + [w];
      case Crash =>
        FeedCrashed(Running(matched), values, j + 1);
        return Crashed;
    }
    assert values[..|values|] == values;
    r := Running(matchedWallets);
  }

  /** `run_wallet_check` (wallet_scoring.py:39-93), up to `plot_wallet_scores`. */
  method RunWalletCheck(files: seq<GenFile>, parse: string -> Option<Json>) returns (r: Check)
    ensures r == WalletCheck(files, parse)
  {
    ghost var valuesOf := ValuesOf(parse);
    var matched: seq<Matched> := [];
    for i := 0 to |files|
      invariant Run(files[..i], valuesOf) == Running(matched)
    {
      assert files[..i + 1][..i] == files[..i];
      var values := FileValues(files[i], parse);
      assert values == valuesOf(files[i]);
      if values.Some? {
        var fed := FeedValues(matched, values.value);
        if fed.Crashed? {
          CheckCrashed(files, valuesOf, i + 1);
          return Crashed;
        }
        matched := fed.matched;
      }
    }
    assert files[..|files|] == files;
    r := Running(matched);
  }

  /** An uncaught error ends the check: nothing fed afterwards revives it. */
  lemma {:induction false} FeedOfCrashed(values: seq<Json>)
    ensures Feed(Crashed, values) == Crashed
  {
    if values != [] {
      FeedOfCrashed(values[..|values| - 1]);
    }
  }

  lemma {:induction false} FeedCrashed(c: Check, values: seq<Json>, k: nat)
    requires k <= |values| && Feed(c, values[..k]) == Crashed
    ensures Feed(c, values) == Crashed
  {
    if k < |values| {
      var n := |values| - 1;
      assert values[..n][..k] == values[..k];
      FeedCrashed(c, values[..n], k);
    } else {
      assert values[..k] == values;
    }
  }

  lemma {:induction false} CheckCrashed(files: seq<GenFile>, values: GenFile -> Option<seq<Json>>, k: nat)
    requires k <= |files| && Run(files[..k], values) == Crashed
    ensures Run(files, values) == Crashed
  {
    if k < |files| {
      var n := |files| - 1;
      assert files[..n][..k] == files[..k];
      CheckCrashed(files[..n], values, k);
      if values(files[n]).Some? {
        FeedOfCrashed(values(files[n]).value);
      }
    } else {
      assert files[..k] == files;
    }
  }

  /** What every entry of `matched_wallets` satisfies: a valid 42-character address and its score, below 100. */
  predicate WellScored(w: Matched) {
    && |w.address| == 42 && StartsWith(Lower(w.address), "0x")
    && CalculateScore(w.address).Some? && w.score == CalculateScore(w.address).value.score
    && w.score == ZeroScore(Count(w.address[2..], '0')) && 0.0 <= w.score < 100.0
  }

  predicate AllWellScored(c: Check) {
    c.Running? ==> forall k :: 0 <= k < |c.matched| ==> WellScored(c.matched[k])
  }

  lemma StepSound(c: Check, v: Json)
    requires AllWellScored(c)
    ensures AllWellScored(Step(c, v))
  {
    if c.Running? && Judge(v).Add? {
      ScoreBounds(v.s);
    }
  }

  lemma {:induction false} FeedSound(c: Check, values: seq<Json>)
    requires AllWellScored(c)
    ensures AllWellScored(Feed(c, values))
  {
    if values != [] {
      FeedSound(c, values[..|values| - 1]);
      StepSound(Feed(c, values[..|values| - 1]), values[|values| - 1]);
    }
  }

  /** Soundness of the report: every wallet it lists has a valid address and the score `calculate_score` gives it. */
  lemma CheckSound(files: seq<GenFile>, parse: string -> Option<Json>)
    ensures AllWellScored(WalletCheck(files, parse))
  {
    RunSound(files, ValuesOf(parse));
  }

  lemma {:induction false} RunSound(files: seq<GenFile>, values: GenFile -> Option<seq<Json>>)
    ensures AllWellScored(Run(files, values))
  {
    if files != [] {
      var n := |files| - 1;
      RunSound(files[..n], values);
      if values(files[n]).Some? {
        FeedSound(Run(files[..n], values), values(files[n]).value);
      }
    }
  }

  /** A file whose name ends neither in .txt nor in .json changes nothing. */
  lemma OtherFilesIgnored(files: seq<GenFile>, f: GenFile, parse: string -> Option<Json>)
    requires !EndsWith(f.name, ".txt") && !EndsWith(f.name, ".json")
    ensures WalletCheck(files + [f], parse) == WalletCheck(files, parse)
  {
    assert (files + [f])[..|files|] == files;
  }

  /** A .txt file can not also end in .json. */
  lemma TxtIsNotJson(name: string)
    requires EndsWith(name, ".txt")
    ensures !EndsWith(name, ".json")
  {
    assert name[|name| - 1] == 't';
    if |name| >= 5 {
      assert name[|name| - 5..][4] == name[|name| - 1];
    }
  }

  /** A single file whose one value is a valid address lists that address once, with its score. */
  lemma SingleWalletListed(f: GenFile, parse: string -> Option<Json>, address: string)
    requires FileValues(f, parse) == Some([JString(address)])
    requires |address| == 42 && StartsWith(Lower(address), "0x")
    ensures WalletCheck([f], parse) == Running([Matched(address, ZeroScore(Count(address[2..], '0')))])
  {
    assert Run([f], ValuesOf(parse)) == FeedFile(Running([]), FileValues(f, parse)) by {
      assert [f][..0] == [];
    }
    assert Feed(Running([]), [JString(address)]) == Step(Running([]), JString(address)) by {
      assert [JString(address)][..0] == [];
    }
    ScoreBounds(address);
  }

  /**
   * End to end for the Python generator's TXT files: a valid address the
   * generator wrote is listed once, with its score.
   */
  lemma TxtWalletListed(name: string, address: string, privateKey: string, attempts: string, rarity: string,
                        parse: string -> Option<Json>)
    requires EndsWith(name, ".txt")
    requires AddressText(address) && |address| == 42 && StartsWith(Lower(address), "0x")
    requires NoNewline(privateKey) && NoNewline(attempts) && NoNewline(rarity)
    requires rarity != [] && !IsSpace(rarity[|rarity| - 1])
    ensures WalletCheck([GenFile(name, Some(WalletFile(address, privateKey, attempts, rarity)))], parse)
         == Running([Matched(address, ZeroScore(Count(address[2..], '0')))])
  {
    var f := GenFile(name, Some(WalletFile(address, privateKey, attempts, rarity)));
    assert FileValues(f, parse) == Some([JString(address)]) by {
      TxtIsNotJson(name);
      TxtRoundTrip(address, privateKey, attempts, rarity);
      assert AsJson([address]) == [JString(address)];
    }
    SingleWalletListed(f, parse, address);
  }

  /** A JSON dict whose "address" is a number ends the whole check with a `TypeError`. */
  lemma NumberAddressCrashes(files: seq<GenFile>, name: string, text: string, parse: string -> Option<Json>, n: real)
    requires EndsWith(name, ".json") && n != 0.0
    requires parse(text) == Some(JObject(map["address" := JNumber(n)]))
    ensures WalletCheck(files + [GenFile(name, Some(text))], parse) == Crashed
  {
    var all := files + [GenFile(name, Some(text))];
    assert all[..|files|] == files;
    assert FileValues(all[|files|], parse) == Some([JNumber(n)]);
    assert Feed(Run(files, ValuesOf(parse)), [JNumber(n)]) == Step(Run(files, ValuesOf(parse)), JNumber(n)) by {
      assert [JNumber(n)][..0] == [];
    }
  }

  /** A JSON dict holding a valid address lists that address once, with its score. */
  lemma JsonWalletListed(name: string, text: string, parse: string -> Option<Json>, fields: map<string, Json>, address: string)
    requires EndsWith(name, ".json")
    requires parse(text) == Some(JObject(fields)) && "address" in fields && fields["address"] == JString(address)
    requires |address| == 42 && StartsWith(Lower(address), "0x")
    ensures WalletCheck([GenFile(name, Some(text))], parse)
         == Running([Matched(address, ZeroScore(Count(address[2..], '0')))])
  {
    SingleWalletListed(GenFile(name, Some(text)), parse, address);
  }

  /** Only the dicts of a JSON list contribute, one value each, in order. */
  lemma {:induction false} ObjectAddressesOfObjects(items: seq<Json>)
    requires forall k :: 0 <= k < |items| ==> items[k].JObject?
    ensures |ObjectAddresses(items)| == |items|
    ensures forall k :: 0 <= k < |items| ==> ObjectAddresses(items)[k] == GetAddress(items[k].fields)
  {
    if items != [] {
      ObjectAddressesOfObjects(items[..|items| - 1]);
    }
  }
}
