/**
 * The configuration of config/config.go: the batch-file loaders that append
 * URLs to a Config, the choice of loader by file name, and the part of
 * ParseFlags that decides between one-time and periodic mode. Reading the
 * file, the flag package and the JSON and CSV tokenisers are not modelled:
 * file contents, decoders and parsed flag values are inputs.
 */
module Config {
  import opened Wrappers
  import opened Strings
  import opened Time

  const MinInt64 := -0x8000_0000_0000_0000
  const MaxInt64 := 0x7FFF_FFFF_FFFF_FFFF

  /** Go's int64 arithmetic: the value wrapped into the two's-complement range. */
  function WrapInt64(x: int): (r: int)
    ensures MinInt64 <= r <= MaxInt64
    ensures (r - x) % 0x1_0000_0000_0000_0000 == 0
    ensures MinInt64 <= x <= MaxInt64 ==> r == x
  {
    (x - MinInt64) % 0x1_0000_0000_0000_0000 + MinInt64
  }

  /** time.Duration(sec) * time.Second, which wraps around in int64 for very large `sec`. */
  function SecondsToDuration(sec: int): (d: Duration)
    ensures MinInt64 <= d <= MaxInt64
    ensures d == sec * NanosPerSecond <==> MinInt64 <= sec * NanosPerSecond <= MaxInt64
    ensures MinInt64 / NanosPerSecond < sec <= MaxInt64 / NanosPerSecond ==> d == sec * NanosPerSecond
  {
    WrapInt64(sec * NanosPerSecond)
  }

  /** A line or field worth keeping once trimmed: not blank and not a `#` comment. */
  predicate IsKept(field: string)
  {
    field != "" && !HasPrefix(field, "#")
  }

  /** What a loader adds for one line or field: the field trimmed, if it is kept. */
  function CleanField(field: string): seq<string>
  {
    var line := Trim(field);
    if IsKept(line) then [line] else []
  }

  /**
   * One line or field adds nothing or its trimmed text, and adds the trimmed
   * text exactly when that is kept; what it adds has no surrounding whitespace.
   */
  lemma CleanFieldAddsKept(field: string)
    ensures CleanField(field) == [] || CleanField(field) == [Trim(field)]
    ensures CleanField(field) != [] <==> IsKept(Trim(field))
    ensures IsTrimmed(Trim(field))
  {
  }

  /** What a loader adds for a list of lines or fields, in order. */
  function Cleaned(fields: seq<string>): (urls: seq<string>)
    ensures |urls| <= |fields|
  {
    if fields == [] then [] else CleanField(fields[0]) + Cleaned(fields[1..])
  }

  /** Every URL a loader adds is non-empty, has no whitespace at either end and does not start with `#`. */
  lemma {:induction false} CleanedAllKept(fields: seq<string>)
    ensures forall k :: 0 <= k < |Cleaned(fields)| ==>
              IsKept(Cleaned(fields)[k]) && IsTrimmed(Cleaned(fields)[k]) && Cleaned(fields)[k][0] != '#'
  {
    if fields != [] {
      CleanedAllKept(fields[1..]);
    }
  }

  /** Cleaning works field by field, so it distributes over concatenation. */
  lemma {:induction false} CleanedAppend(a: seq<string>, b: seq<string>)
    ensures Cleaned(a + b) == Cleaned(a) + Cleaned(b)
  {
    if a == [] {
      assert a + b == b;
    } else {
      calc {
        Cleaned(a + b);
        { assert (a + b)[0] == a[0]; assert (a + b)[1..] == a[1..] + b; }
        CleanField(a[0]) + Cleaned(a[1..] + b);
        { CleanedAppend(a[1..], b); }
        CleanField(a[0]) + (Cleaned(a[1..]) + Cleaned(b));
        (CleanField(a[0]) + Cleaned(a[1..])) + Cleaned(b);
      }
    }
  }

  /** One more field adds what that field alone adds. */
  lemma CleanedSnoc(fields: seq<string>, i: nat)
    requires i < |fields|
    ensures Cleaned(fields[..i + 1]) == Cleaned(fields[..i]) + CleanField(fields[i])
  {
    assert fields[..i + 1] == fields[..i] + [fields[i]];
    CleanedAppend(fields[..i], [fields[i]]);
    assert [fields[i]][1..] == [];
  }

  /** Exactly the trimmed fields that are kept make it into the cleaned list. */
  lemma {:induction false} CleanedMembership(fields: seq<string>, url: string)
    ensures url in Cleaned(fields) <==> exists k :: 0 <= k < |fields| && Trim(fields[k]) == url && IsKept(url)
  {
    if fields != [] {
      CleanFieldAddsKept(fields[0]);
      CleanedMembership(fields[1..], url);
      if url in Cleaned(fields[1..]) {
        var k :| 0 <= k < |fields[1..]| && Trim(fields[1..][k]) == url && IsKept(url);
        assert Trim(fields[k + 1]) == url;
      }
      if exists k :: 0 <= k < |fields| && Trim(fields[k]) == url && IsKept(url) {
        var k :| 0 <= k < |fields| && Trim(fields[k]) == url && IsKept(url);
        if k > 0 {
          assert Trim(fields[1..][k - 1]) == url;
        }
      }
    }
  }

  /** The URLs the text loader adds for a file's contents: its cleaned lines. */
  function TextUrls(data: string): seq<string>
  {
    Cleaned(Split(data, '\n'))
  }

  /** The first field of each record that has one, in record order. */
  function FirstFields(records: seq<seq<string>>): (fields: seq<string>)
    ensures |fields| <= |records|
  {
    if records == [] then []
    else (if |records[0]| > 0 then [records[0][0]] else []) + FirstFields(records[1..])
  }

  lemma {:induction false} FirstFieldsAppend(a: seq<seq<string>>, b: seq<seq<string>>)
    ensures FirstFields(a + b) == FirstFields(a) + FirstFields(b)
  {
    if a != [] {
      assert a + b == [a[0]] + (a[1..] + b);
      FirstFieldsAppend(a[1..], b);
    } else {
      assert a + b == b;
    }
  }

  lemma {:induction false} FirstFieldsMembership(records: seq<seq<string>>, field: string)
    ensures field in FirstFields(records) <==>
              exists i :: 0 <= i < |records| && |records[i]| > 0 && records[i][0] == field
  {
    if records != [] {
      FirstFieldsMembership(records[1..], field);
      if field in FirstFields(records[1..]) {
        var i :| 0 <= i < |records[1..]| && |records[1..][i]| > 0 && records[1..][i][0] == field;
        assert records[i + 1] == records[1..][i];
      }
      if exists i :: 0 <= i < |records| && |records[i]| > 0 && records[i][0] == field {
        var i :| 0 <= i < |records| && |records[i]| > 0 && records[i][0] == field;
        if i > 0 {
          assert records[1..][i - 1] == records[i];
        }
      }
    }
  }

  /** The CSV header rule: a trimmed first field "url", "URL", or one without "://". */
  predicate LooksLikeHeader(field: string)
  {
    field == "url" || field == "URL" || !Contains(field, "://")
  }

  /** What record 0 contributes: its cleaned first field, unless that looks like a header. */
  function HeaderRecordUrls(record: seq<string>): seq<string>
  {
    if |record| > 0 && !LooksLikeHeader(Trim(record[0])) then CleanField(record[0]) else []
  }

  /**
   * The URLs the CSV loader adds for decoded records: the first record counts
   * only if its first field does not look like a header; every later record
   * with a field contributes its cleaned first field.
   */
  function CsvUrls(records: seq<seq<string>>): (urls: seq<string>)
    ensures |urls| <= |records|
  {
    if records == [] then [] else HeaderRecordUrls(records[0]) + Cleaned(FirstFields(records[1..]))
  }

  /** Every URL the CSV loader adds is non-empty, has no whitespace at either end and does not start with `#`. */
  lemma CsvUrlsAllKept(records: seq<seq<string>>)
    ensures forall k :: 0 <= k < |CsvUrls(records)| ==>
              IsKept(CsvUrls(records)[k]) && IsTrimmed(CsvUrls(records)[k]) && CsvUrls(records)[k][0] != '#'
  {
    if records != [] {
      CleanedAllKept(FirstFields(records[1..]));
    }
  }

  /** What the loop body of the CSV loader adds for record `i`. */
  function CsvRecordUrls(i: nat, record: seq<string>): seq<string>
  {
    if |record| == 0 then []
    else if i == 0 && LooksLikeHeader(Trim(record[0])) then []
    else CleanField(record[0])
  }

  /** The CSV URLs of a single record are what the loop body adds for record 0. */
  lemma CsvUrlsFirstRecord(r: seq<string>)
    ensures CsvUrls([r]) == CsvRecordUrls(0, r)
  {
    var single: seq<seq<string>> := [r];
    assert single[1..] == [];
  }

  /** A record after the first adds the cleaned first field it has. */
  lemma CleanedFirstFieldOf(r: seq<string>)
    ensures Cleaned(FirstFields([r])) == if |r| > 0 then CleanField(r[0]) else []
  {
    var single: seq<seq<string>> := [r];
    assert single[1..] == [];
    if |r| > 0 {
      assert FirstFields(single) == [r[0]];
      assert [r[0]][1..] == [];
    }
  }

  /** Appending a record after the first appends its cleaned first field. */
  lemma CsvUrlsAppendRecord(pre: seq<seq<string>>, r: seq<string>)
    requires pre != []
    ensures CsvUrls(pre + [r]) == CsvUrls(pre) + Cleaned(FirstFields([r]))
  {
    assert (pre + [r])[0] == pre[0];
    assert (pre + [r])[1..] == pre[1..] + [r];
    FirstFieldsAppend(pre[1..], [r]);
    CleanedAppend(FirstFields(pre[1..]), FirstFields([r]));
  }

  /** The CSV URLs of one more record are those of the records before it followed by its own. */
  lemma CsvUrlsSnoc(records: seq<seq<string>>, i: nat)
    requires i < |records|
    ensures CsvUrls(records[..i + 1]) == CsvUrls(records[..i]) + CsvRecordUrls(i, records[i])
  {
    var r := records[i];
    if i == 0 {
      assert records[..1] == [r];
      CsvUrlsFirstRecord(r);
    } else {
      assert records[..i + 1] == records[..i] + [r];
      CsvUrlsAppendRecord(records[..i], r);
      CleanedFirstFieldOf(r);
    }
  }

  /**
   * A URL comes out of the CSV loader exactly when some record's trimmed
   * first field is that URL, is kept, and — for record 0 only — does not look
   * like a header. Later records are kept even without "://".
   */
  lemma CsvMembership(records: seq<seq<string>>, url: string)
    ensures url in CsvUrls(records) <==>
              exists i :: 0 <= i < |records| && |records[i]| > 0 && Trim(records[i][0]) == url
                          && IsKept(url) && (i == 0 ==> !LooksLikeHeader(url))
  {
    if records != [] {
      var rest := records[1..];
      HeaderRecordMembership(records[0], url);
      LaterRecordsMembership(rest, url);
      if exists j :: 0 <= j < |rest| && |rest[j]| > 0 && Trim(rest[j][0]) == url && IsKept(url) {
        var j :| 0 <= j < |rest| && |rest[j]| > 0 && Trim(rest[j][0]) == url && IsKept(url);
        assert records[j + 1] == rest[j];
      }
      if exists i :: 0 <= i < |records| && |records[i]| > 0 && Trim(records[i][0]) == url
                     && IsKept(url) && (i == 0 ==> !LooksLikeHeader(url)) {
        var i :| 0 <= i < |records| && |records[i]| > 0 && Trim(records[i][0]) == url
                 && IsKept(url) && (i == 0 ==> !LooksLikeHeader(url));
        if i > 0 {
          assert rest[i - 1] == records[i];
        }
      }
    }
  }

  /** Record 0 adds a URL exactly when its trimmed first field is that URL, is kept and is no header. */
  lemma HeaderRecordMembership(r: seq<string>, url: string)
    ensures url in HeaderRecordUrls(r) <==>
              |r| > 0 && Trim(r[0]) == url && IsKept(url) && !LooksLikeHeader(url)
  {
    if |r| > 0 {
      CleanFieldAddsKept(r[0]);
    }
  }

  /** The records after the first add a URL exactly when one of them has it, trimmed and kept, as first field. */
  lemma LaterRecordsMembership(rest: seq<seq<string>>, url: string)
    ensures url in Cleaned(FirstFields(rest)) <==>
              exists j :: 0 <= j < |rest| && |rest[j]| > 0 && Trim(rest[j][0]) == url && IsKept(url)
  {
    var fields := FirstFields(rest);
    CleanedMembership(fields, url);
    if url in Cleaned(fields) {
      var k :| 0 <= k < |fields| && Trim(fields[k]) == url && IsKept(url);
      FirstFieldsMembership(rest, fields[k]);
      var j :| 0 <= j < |rest| && |rest[j]| > 0 && rest[j][0] == fields[k];
    }
    if exists j :: 0 <= j < |rest| && |rest[j]| > 0 && Trim(rest[j][0]) == url && IsKept(url) {
      var j :| 0 <= j < |rest| && |rest[j]| > 0 && Trim(rest[j][0]) == url && IsKept(url);
      FirstFieldsMembership(rest, rest[j][0]);
      var k :| 0 <= k < |fields| && fields[k] == rest[j][0];
    }
  }

  /** A first record whose field has a scheme is kept. */
  lemma SchemeFieldIsKept(field: string)
    requires IsTrimmed(field) && IsKept(field) && Contains(field, "://") && field != "url" && field != "URL"
    ensures CsvRecordUrls(0, [field]) == [field]
  {
    TrimKeepsTrimmed(field);
  }

  /** A field that is already trimmed and kept is added as it is. */
  lemma CleanFieldOfKept(field: string)
    requires IsTrimmed(field) && IsKept(field)
    ensures CleanField(field) == [field]
  {
    TrimKeepsTrimmed(field);
  }

  /** The header rule on a small input: a "url" header row is dropped. */
  lemma CsvHeaderDropped()
    ensures CsvUrls([["url"], ["https://a"]]) == ["https://a"]
  {
    var header: seq<string> := ["url"];
    var row: seq<string> := ["https://a"];
    TrimKeepsTrimmed("url");
    assert CsvUrls([header]) == [] by {
      CsvUrlsFirstRecord(header);
    }
    CsvUrlsAppendRecord([header], row);
    assert [header] + [row] == [["url"], ["https://a"]];
    CleanedFirstFieldOf(row);
    CleanFieldOfKept("https://a");
  }

  /** The header rule on a small input: a first row with a scheme is kept, and a later row even without one. */
  lemma CsvLaterRowKept()
    ensures CsvUrls([["https://a"], ["b.example"]]) == ["https://a", "b.example"]
  {
    var first: seq<string> := ["https://a"];
    var row: seq<string> := ["b.example"];
    assert HasPrefix("https://a"[5..], "://");
    SchemeFieldIsKept("https://a");
    CsvUrlsFirstRecord(first);
    CsvUrlsAppendRecord([first], row);
    assert [first] + [row] == [["https://a"], ["b.example"]];
    CleanedFirstFieldOf(row);
    CleanFieldOfKept("b.example");
  }

  /** Which loader a batch file goes to. */
  datatype FileFormat = Json | Csv | PlainText

  /** Chooses the loader from the file name, ignoring ASCII case: ".json", then ".csv", else text. */
  function FormatOf(path: string): FileFormat
  {
    var name := ToLower(path);
    if HasSuffix(name, ".json") then Json
    else if HasSuffix(name, ".csv") then Csv
    else PlainText
  }

  /** Any spelling of the extension in any letter case selects the same loader. */
  lemma {:induction false} FormatOfAnyCase(stem: string, ext: string)
    ensures ToLower(ext) == ".json" ==> FormatOf(stem + ext) == Json
    ensures ToLower(ext) == ".csv" ==> FormatOf(stem + ext) == Csv
    ensures ToLower(ext) == ".txt" ==> FormatOf(stem + ext) == PlainText
  {
    ToLowerAppend(stem, ext);
    var name := ToLower(stem + ext);
    var e := ToLower(ext);
    assert name == ToLower(stem) + e;
    if e == ".json" {
      assert name[|name| - 5..] == e;
    } else if e == ".csv" || e == ".txt" {
      assert name[|name| - 4..] == e;
      assert name[|name| - 1] == e[3];
      assert !HasSuffix(name, ".json") by {
        assert |name| >= 5 ==> name[|name| - 5..][4] == name[|name| - 1];
      }
      if e == ".txt" {
        assert !HasSuffix(name, ".csv") by {
          assert name[|name| - 4..][3] == name[|name| - 1];
        }
      }
    }
  }

  /** ".json" is tried first, then ".csv"; a name with neither goes to the text loader. */
  lemma FormatOfOrder(path: string)
    ensures FormatOf(path) == Json <==> HasSuffix(ToLower(path), ".json")
    ensures FormatOf(path) == Csv <==> !HasSuffix(ToLower(path), ".json") && HasSuffix(ToLower(path), ".csv")
    ensures FormatOf(path) == PlainText <==> !HasSuffix(ToLower(path), ".json") && !HasSuffix(ToLower(path), ".csv")
  {
  }

  /** Flag values as the flag package leaves them after parsing the command line. */
  datatype FlagValues = FlagValues(
    intervalSec: int,
    count: int,
    silent: bool,
    notifyOnUp: bool,
    batch: string,
    add: string,
    list: bool,
    positional: seq<string>)

  /** An argument that sets the interval explicitly. */
  predicate IsIntervalFlag(arg: string)
  {
    arg == "--interval" || HasPrefix(arg, "--interval=")
  }

  /**
   * Scans the arguments after the program name for an explicit interval;
   * it holds exactly when one of them is `--interval` or starts with `--interval=`.
   */
  method IntervalSet(args: seq<string>) returns (found: bool)
    requires |args| >= 1
    ensures found <==> exists k :: 1 <= k < |args| && IsIntervalFlag(args[k])
  {
    found := false;
    var k := 1;
    while k < |args|
      invariant 1 <= k <= |args|
      invariant !found
      invariant forall j :: 1 <= j < k ==> !IsIntervalFlag(args[j])
    {
      if args[k] == "--interval" || HasPrefix(args[k], "--interval=") {
        found := true;
        break;
      }
      k := k + 1;
    }
  }

  /** One-time mode: no explicit interval, and a count of 0 or 1. */
  predicate IsOneTime(intervalSet: bool, count: int)
  {
    !intervalSet && (count == 0 || count == 1)
  }

  class Config {
    var urls: seq<string>
    var interval: Duration
    var count: int
    var silent: bool
    var notifyOnUp: bool
    var batchFile: string
    var addURL: string
    var showList: bool
    var oneTime: bool

    /** The zero Config, as `&Config{}` makes it. */
    constructor ()
      ensures urls == [] && interval == 0 && count == 0 && !silent && !notifyOnUp
      ensures batchFile == "" && addURL == "" && !showList && !oneTime
    {
      urls, interval, count := [], 0, 0;
      silent, notifyOnUp := false, false;
      batchFile, addURL := "", "";
      showList, oneTime := false, false;
    }

    /** Appends the trimmed lines of `data` that are neither blank nor comments; never fails. */
    method LoadTextUrls(data: string) returns (err: Option<string>)
      modifies this`urls
      ensures err == None
      ensures urls == old(urls) + TextUrls(data)
    {
      var lines := Split(data, '\n');
      AddCleanedLines(lines);
      err := None;
    }

    /** The loop of the text loader: each line, trimmed, if it is neither blank nor a comment. */
    method AddCleanedLines(lines: seq<string>)
      modifies this`urls
      ensures urls == old(urls) + Cleaned(lines)
    {
      for i := 0 to |lines|
        invariant urls == old(urls) + Cleaned(lines[..i])
      {
        var line := Trim(lines[i]);
        CleanedSnoc(lines, i);
        if line != "" && !HasPrefix(line, "#") {
          urls := urls + [line];
        }
      }
      assert lines[..|lines|] == lines;
    }

    /** Appends the decoded JSON array in order; a decode error leaves the URLs as they were. */
    method LoadJSONUrls(data: string, decodeJSON: string -> Result<seq<string>>) returns (err: Option<string>)
      modifies this`urls
      ensures decodeJSON(data).Failure? ==>
                err == Some("failed to parse JSON: " + decodeJSON(data).error) && urls == old(urls)
      ensures decodeJSON(data).Success? ==> err == None && urls == old(urls) + decodeJSON(data).value
    {
      var decoded := decodeJSON(data);
      if decoded.Failure? {
        return Some("failed to parse JSON: " + decoded.error);
      }
      urls := urls + decoded.value;
      err := None;
    }

    /** Appends the cleaned first fields of the decoded CSV records, skipping a header row. */
    method LoadCSVUrls(data: string, decodeCSV: string -> Result<seq<seq<string>>>) returns (err: Option<string>)
      modifies this`urls
      ensures decodeCSV(data).Failure? ==>
                err == Some("failed to parse CSV: " + decodeCSV(data).error) && urls == old(urls)
      ensures decodeCSV(data).Success? ==> err == None && urls == old(urls) + CsvUrls(decodeCSV(data).value)
    {
      var decoded := decodeCSV(data);
      if decoded.Failure? {
        return Some("failed to parse CSV: " + decoded.error);
      }
      var records := decoded.value;
      for i := 0 to |records|
        invariant urls == old(urls) + CsvUrls(records[..i])
      {
        AddRecordUrl(i, records[i]);
        CsvUrlsSnoc(records, i);
      }
      assert records[..|records|] == records;
      err := None;
    }

    /** One pass of the CSV loader's loop: record `i` adds its trimmed first field, unless skipped. */
    method AddRecordUrl(i: nat, record: seq<string>)
      modifies this`urls
      ensures urls == old(urls) + CsvRecordUrls(i, record)
    {
      if |record| > 0 {
        var url := Trim(record[0]);
        // A header row is skipped.
        if i == 0 && (url == "url" || url == "URL" || !Contains(url, "://")) {
          return;
        }
        if url != "" && !HasPrefix(url, "#") {
          urls := urls + [url];
        }
      }
    }

    /**
     * Loads the batch file, if one is named: its contents come from
     * `readFile`, and its name picks the JSON, CSV or text loader.
     */
    method LoadBatchFile(readFile: string -> Result<string>,
                         decodeJSON: string -> Result<seq<string>>,
                         decodeCSV: string -> Result<seq<seq<string>>>) returns (err: Option<string>)
      modifies this`urls
      ensures batchFile == "" ==> err == None && urls == old(urls)
      ensures batchFile != "" && readFile(batchFile).Failure? ==>
                err == Some("failed to read batch file: " + readFile(batchFile).error) && urls == old(urls)
      ensures batchFile != "" && readFile(batchFile).Success? ==>
                var data := readFile(batchFile).value;
                match FormatOf(batchFile)
                case Json =>
                  if decodeJSON(data).Failure? then err == Some("failed to parse JSON: " + decodeJSON(data).error) && urls == old(urls)
                  else err == None && urls == old(urls) + decodeJSON(data).value
                case Csv =>
                  if decodeCSV(data).Failure? then err == Some("failed to parse CSV: " + decodeCSV(data).error) && urls == old(urls)
                  else err == None && urls == old(urls) + CsvUrls(decodeCSV(data).value)
                case PlainText => err == None && urls == old(urls) + TextUrls(data)
    {
      if batchFile == "" {
        return None;
      }
      var read := readFile(batchFile);
      if read.Failure? {
        return Some("failed to read batch file: " + read.error);
      }
      var ext := ToLower(batchFile);
      if HasSuffix(ext, ".json") {
        err := LoadJSONUrls(read.value, decodeJSON);
      } else if HasSuffix(ext, ".csv") {
        err := LoadCSVUrls(read.value, decodeCSV);
      } else {
        err := LoadTextUrls(read.value);
      }
    }
  }

  /**
   * Builds the Config from the command line: the parsed flag values, the
   * positional arguments as the URL list, the interval in seconds as a
   * Duration, and one-time mode exactly when no argument after the program
   * name sets the interval and the count is 0 or 1.
   */
  method ParseFlags(args: seq<string>, flags: FlagValues) returns (c: Config, err: Option<string>)
    requires |args| >= 1
    ensures fresh(c) && err == None
    ensures c.urls == flags.positional && c.interval == SecondsToDuration(flags.intervalSec)
    ensures c.count == flags.count && c.silent == flags.silent && c.notifyOnUp == flags.notifyOnUp
    ensures c.batchFile == flags.batch && c.addURL == flags.add && c.showList == flags.list
    ensures c.oneTime <==> IsOneTime(exists k :: 1 <= k < |args| && IsIntervalFlag(args[k]), flags.count)
  {
    c := new Config();
    c.count, c.silent, c.notifyOnUp := flags.count, flags.silent, flags.notifyOnUp;
    c.batchFile, c.addURL, c.showList := flags.batch, flags.add, flags.list;
    var intervalSet := IntervalSet(args);
    c.interval := SecondsToDuration(flags.intervalSec);
    if |flags.positional| > 0 {
      c.urls := flags.positional;
    }
    c.oneTime := !intervalSet && (c.count == 0 || c.count == 1);
    err := None;
  }
}
