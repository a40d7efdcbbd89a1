/** The argument handling of rpcclient's SPOOLSS commands: the printer
    architecture table and its lookups, the driver description parser of
    adddriver, the architectures enumdrivers and deletedriverex visit,
    setprinterdata's value types and the form flag names. */
module Spoolss {
  import opened Common

  // ---------------------------------------------------------------------
  // The architecture table

  /** struct table_node: a long architecture name, its short directory
      name and a driver version. */
  datatype TableNode = TableNode(longArchi: string, shortArchi: string, version: int)

  /** archi_table without its NULL sentinel row.  Rows of one
      architecture are kept together, which enumdrivers relies on. */
  const ArchiTable: seq<TableNode> := [
    TableNode("Windows 4.0", "WIN40", 0),
    TableNode("Windows NT x86", "W32X86", 2),
    TableNode("Windows NT x86", "W32X86", 3),
    TableNode("Windows NT R4000", "W32MIPS", 2),
    TableNode("Windows NT Alpha_AXP", "W32ALPHA", 2),
    TableNode("Windows NT PowerPC", "W32PPC", 2),
    TableNode("Windows IA64", "IA64", 3),
    TableNode("Windows x64", "x64", 3)
  ]

  /** The index of the first row whose long name equals `longArchi` up
      to case (StrCaseCmp), if any. */
  function FirstLong(table: seq<TableNode>, longArchi: string): (r: Option<nat>)
    ensures r.None? <==> forall i :: 0 <= i < |table| ==> !EqualsIgnoreCase(longArchi, table[i].longArchi)
    ensures r.Some? ==> r.value < |table| && EqualsIgnoreCase(longArchi, table[r.value].longArchi)
    ensures r.Some? ==> forall j :: 0 <= j < r.value ==> !EqualsIgnoreCase(longArchi, table[j].longArchi)
  {
    if |table| == 0 then None
    else if EqualsIgnoreCase(longArchi, table[0].longArchi) then Some(0)
    else match FirstLong(table[1..], longArchi)
      case None => None
      case Some(i) => Some(i + 1)
  }

  /** The index of the first row whose short name is exactly `arch`
      (strcmp), if any. */
  function FirstShort(table: seq<TableNode>, arch: string): (r: Option<nat>)
    ensures r.None? <==> forall i :: 0 <= i < |table| ==> table[i].shortArchi != arch
    ensures r.Some? ==> r.value < |table| && table[r.value].shortArchi == arch
    ensures r.Some? ==> forall j :: 0 <= j < r.value ==> table[j].shortArchi != arch
  {
    if |table| == 0 then None
    else if table[0].shortArchi == arch then Some(0)
    else match FirstShort(table[1..], arch)
      case None => None
      case Some(i) => Some(i + 1)
  }

  /** cmd_spoolss_get_short_archi over `table` (archi_table in the
      source): the short name of the first row whose long name matches,
      or NULL. */
  method GetShortArchi(table: seq<TableNode>, longArchi: string) returns (r: Option<string>)
    ensures r.None? <==> FirstLong(table, longArchi).None?
    ensures r.Some? ==> r.value == table[FirstLong(table, longArchi).value].shortArchi
  {
    var i := 0;
    while i < |table| && !EqualsIgnoreCase(longArchi, table[i].longArchi)
      invariant 0 <= i <= |table|
      invariant forall j :: 0 <= j < i ==> !EqualsIgnoreCase(longArchi, table[j].longArchi)
    {
      i := i + 1;
    }
    if i == |table| {
      return None;
    }
    return Some(table[i].shortArchi);
  }

  /** The lookup ignores case: names equal up to case find the same row. */
  lemma FirstLongIgnoresCase(table: seq<TableNode>, a: string, b: string)
    requires EqualsIgnoreCase(a, b)
    ensures FirstLong(table, a) == FirstLong(table, b)
  {
  }

  /** In archi_table, "Windows NT x86" is the second row (short name
      W32X86) and "Windows 2000" is no row at all. */
  lemma ShortArchiExamples()
    ensures FirstLong(ArchiTable, "Windows NT x86") == Some(1)
    ensures ArchiTable[1].shortArchi == "W32X86"
    ensures FirstLong(ArchiTable, "Windows 2000").None?
  {
    var t := ArchiTable;
    ArchiSignatureValues();
    SignatureDiffers("Windows NT x86", t[0].longArchi);
    assert Signature("Windows 2000") == (12, '2');
    forall i | 0 <= i < |t|
      ensures !EqualsIgnoreCase("Windows 2000", t[i].longArchi)
    {
      SignatureDiffers("Windows 2000", t[i].longArchi);
    }
  }

  /** The length of a name and its ninth letter in upper case. */
  function Signature(s: string): (int, char)
  {
    (|s|, if |s| > 8 then UpperChar(s[8]) else ' ')
  }

  /** Names equal up to case have the same signature. */
  lemma SignatureOfUpper(a: string, b: string)
    requires Upper(a) == Upper(b)
    ensures Signature(a) == Signature(b)
  {
    if |a| > 8 {
      assert Upper(a)[8] == UpperChar(a[8]);
    }
  }

  /** Names whose signatures differ differ up to case. */
  lemma SignatureDiffers(a: string, b: string)
    requires Signature(a) != Signature(b)
    ensures !EqualsIgnoreCase(a, b)
  {
    if Upper(a) == Upper(b) {
      SignatureOfUpper(a, b);
    }
  }

  /** The signature of each archi_table long name. */
  lemma ArchiSignatureValues()
    ensures var t := ArchiTable;
      Signature(t[0].longArchi) == (11, '4') &&
      Signature(t[1].longArchi) == (14, 'N') &&
      Signature(t[2].longArchi) == (14, 'N') &&
      Signature(t[3].longArchi) == (16, 'N') &&
      Signature(t[4].longArchi) == (20, 'N') &&
      Signature(t[5].longArchi) == (18, 'N') &&
      Signature(t[6].longArchi) == (12, 'I') &&
      Signature(t[7].longArchi) == (11, 'X')
  {
  }

  /** Only rows 1 and 2 of the table share a signature. */
  lemma ArchiSignatures()
    ensures forall i, k :: 0 <= i < k < |ArchiTable| && Signature(ArchiTable[i].longArchi) == Signature(ArchiTable[k].longArchi) ==>
      i == 1 && k == 2
  {
    ArchiSignatureValues();
  }

  // ---------------------------------------------------------------------
  // adddriver: struct spoolss_AddDriverInfo3

  /** The fields of a driver description the command line fills in; a
      NULL string is None. */
  datatype DriverFields = DriverFields(
    driverName: Option<string>, driverPath: Option<string>, dataFile: Option<string>,
    configFile: Option<string>, helpFile: Option<string>, monitorName: Option<string>,
    defaultDatatype: Option<string>, dependentFiles: Option<seq<string>>)

  /** The version and environment come from the architecture table, the
      other fields from the driver description. */
  class AddDriverInfo3 {
    var version: int
    var architecture: Option<string>
    var driverName: Option<string>
    var driverPath: Option<string>
    var dataFile: Option<string>
    var configFile: Option<string>
    var helpFile: Option<string>
    var monitorName: Option<string>
    var defaultDatatype: Option<string>
    var dependentFiles: Option<seq<string>>

    /** ZERO_STRUCT(info3). */
    constructor ()
      ensures version == 0 && architecture.None?
      ensures Fields() == DriverFields(None, None, None, None, None, None, None, None)
    {
      version := 0;
      architecture := None;
      driverName, driverPath, dataFile := None, None, None;
      configFile, helpFile, monitorName := None, None, None;
      defaultDatatype, dependentFiles := None, None;
    }

    function Fields(): DriverFields
      reads this
    {
      DriverFields(driverName, driverPath, dataFile, configFile, helpFile, monitorName,
                   defaultDatatype, dependentFiles)
    }

    /** set_drv_info_3_env over `table`: version and long name of the
        first row whose short name is `arch`; with no such row nothing
        changes. */
    method SetEnv(table: seq<TableNode>, arch: string)
      modifies this
      ensures FirstShort(table, arch).None? ==>
        version == old(version) && architecture == old(architecture)
      ensures FirstShort(table, arch).Some? ==>
        var row := table[FirstShort(table, arch).value];
        version == row.version && architecture == Some(row.longArchi)
      ensures Fields() == old(Fields())
    {
      var i := 0;
      while i < |table|
        invariant 0 <= i <= |table|
        invariant forall j :: 0 <= j < i ==> table[j].shortArchi != arch
      {
        if arch == table[i].shortArchi {
          version := table[i].version;
          architecture := Some(table[i].longArchi);
          return;
        }
        i := i + 1;
      }
    }

    /** init_drv_info_3_members: seven ':'-separated fields, then the
        dependent files as a ','-separated list. */
    method InitMembers(args: string)
      modifies this
      ensures Fields() == ParseDriverArgs(args)
      ensures version == old(version) && architecture == old(architecture)
    {
      var f := ReadDriverArgs(args);
      driverName, driverPath, dataFile := f.driverName, f.driverPath, f.dataFile;
      configFile, helpFile, monitorName := f.configFile, f.helpFile, f.monitorName;
      defaultDatatype, dependentFiles := f.defaultDatatype, f.dependentFiles;
    }
  }

  /** The parameter calls and the dependent-file loop of
      init_drv_info_3_members, before anything is stored. */
  method ReadDriverArgs(args: string) returns (f: DriverFields)
    ensures f == ParseDriverArgs(args)
  {
    var p1, p2, p3, p4, p5, p6, p7, p8, r1, r2, r3, r4, r5, r6, r7, r8;
    p1, r1 := GetDriver3Param(args, ':');
    p2, r2 := GetDriver3Param(r1, ':');
    p3, r3 := GetDriver3Param(r2, ':');
    p4, r4 := GetDriver3Param(r3, ':');
    p5, r5 := GetDriver3Param(r4, ':');
    p6, r6 := GetDriver3Param(r5, ':');
    p7, r7 := GetDriver3Param(r6, ':');
    p8, r8 := GetDriver3Param(r7, ':');
    var files := CollectFiles(if p8.Some? then p8.value else r8);
    f := DriverFields(p1, p2, p3, p4, p5, p6, p7, if |files| > 0 then Some(files) else None);
  }

  /** strtok_r with a single delimiter on the text still to scan: skip
      leading delimiters, take the token up to the next delimiter and
      consume that delimiter.  No token once only delimiters are left. */
  function StrTok(s: string, delim: char): (r: (Option<string>, string))
    ensures r.0.None? <==> forall k :: 0 <= k < |s| ==> s[k] == delim
    ensures r.0.Some? ==> |r.0.value| > 0 && delim !in r.0.value && |r.1| < |s|
    ensures |r.1| <= |s|
  {
    if |s| == 0 then (None, "")
    else if s[0] == delim then StrTok(s[1..], delim)
    else
      var n := TokenLength(s, delim);
      (Some(s[..n]), if n < |s| then s[n + 1..] else "")
  }

  /** The number of delimiters strtok_r skips before a token. */
  function LeadingDelims(s: string, delim: char): (n: nat)
    ensures n <= |s|
    ensures forall k :: 0 <= k < n ==> s[k] == delim
    ensures n < |s| ==> s[n] != delim
  {
    if |s| == 0 || s[0] != delim then 0 else 1 + LeadingDelims(s[1..], delim)
  }

  /** t lies in s at j and ends at a delimiter or at the end of s, and
      rest is what follows that delimiter. */
  predicate TokenAt(s: string, delim: char, j: nat, t: string, rest: string)
  {
    && j + |t| <= |s| && s[j..j + |t|] == t
    && (j + |t| < |s| ==> s[j + |t|] == delim && rest == s[j + |t| + 1..])
    && (j + |t| == |s| ==> rest == "")
  }

  /** The token strtok_r returns is the text after the leading delimiters
      up to the next delimiter or the end, and the scan resumes just after
      that delimiter. */
  lemma {:induction false} StrTokToken(s: string, delim: char)
    requires StrTok(s, delim).0.Some?
    ensures TokenAt(s, delim, LeadingDelims(s, delim), StrTok(s, delim).0.value, StrTok(s, delim).1)
    decreases |s|
  {
    if s[0] == delim {
      StrTokToken(s[1..], delim);
      TokenAfterDelim(s, delim, LeadingDelims(s[1..], delim), StrTok(s, delim).0.value, StrTok(s, delim).1);
    }
  }

  /** A token found after the first character is found in the whole
      text one position further on. */
  lemma TokenAfterDelim(s: string, delim: char, j: nat, t: string, rest: string)
    requires |s| > 0 && TokenAt(s[1..], delim, j, t, rest)
    ensures TokenAt(s, delim, j + 1, t, rest)
  {
    assert s[1..][j..j + |t|] == s[j + 1..j + 1 + |t|];
    if j + 1 + |t| < |s| {
      assert s[1..][j + |t| + 1..] == s[j + 1 + |t| + 1..];
    }
  }

  /** The length of the run of non-delimiters at the head of `s`. */
  function TokenLength(s: string, delim: char): (n: nat)
    ensures n <= |s| && delim !in s[..n]
    ensures n < |s| ==> s[n] == delim
  {
    if |s| == 0 || s[0] == delim then 0 else 1 + TokenLength(s[1..], delim)
  }

  /** Every token strtok_r yields from `s`, in order. */
  function Tokens(s: string, delim: char): (r: seq<string>)
    ensures forall k :: 0 <= k < |r| ==> |r[k]| > 0 && delim !in r[k]
    decreases |s|
  {
    match StrTok(s, delim)
    case (None, _) => []
    case (Some(t), rest) => [t] + Tokens(rest, delim)
  }

  /** Fields written out with the delimiter between them. */
  function Join(fields: seq<string>, delim: char): string
  {
    if |fields| == 0 then ""
    else if |fields| == 1 then fields[0]
    else fields[0] + [delim] + Join(fields[1..], delim)
  }

  /** Fields that are non-empty and free of the delimiter. */
  predicate Plain(fields: seq<string>, delim: char)
  {
    forall k :: 0 <= k < |fields| ==> |fields[k]| > 0 && delim !in fields[k]
  }

  lemma {:induction false} TokenLengthOfJoin(f: string, tail: string, delim: char)
    requires delim !in f
    ensures TokenLength(f + tail, delim) == |f| + TokenLength(tail, delim)
  {
    if |f| > 0 {
      assert (f + tail)[1..] == f[1..] + tail;
      TokenLengthOfJoin(f[1..], tail, delim);
    } else {
      assert f + tail == tail;
    }
  }

  /** strtok_r on joined fields returns the first field and leaves the
      rest joined. */
  lemma StrTokJoin(fields: seq<string>, delim: char)
    requires |fields| > 0 && Plain(fields, delim)
    ensures StrTok(Join(fields, delim), delim) == (Some(fields[0]), Join(fields[1..], delim))
  {
    var f := fields[0];
    if |fields| == 1 {
      TokenLengthOfJoin(f, "", delim);
      assert f + "" == f;
    } else {
      var tail := [delim] + Join(fields[1..], delim);
      TokenLengthOfJoin(f, tail, delim);
      assert Join(fields, delim) == f + tail;
      assert (f + tail)[..|f|] == f;
      assert (f + tail)[|f| + 1..] == Join(fields[1..], delim);
    }
  }

  /** Splitting joined fields gives them back. */
  lemma {:induction false} TokensJoin(fields: seq<string>, delim: char)
    requires Plain(fields, delim)
    ensures Tokens(Join(fields, delim), delim) == fields
    decreases |fields|
  {
    if |fields| > 0 {
      StrTokJoin(fields, delim);
      TokensJoin(fields[1..], delim);
    }
  }

  lemma {:induction false} JoinAvoids(fields: seq<string>, delim: char, c: char)
    requires |fields| > 0 && Plain(fields, delim) && c != delim
    requires forall k :: 0 <= k < |fields| ==> c !in fields[k]
    ensures |Join(fields, delim)| > 0 && c !in Join(fields, delim)
  {
    if |fields| > 1 {
      JoinAvoids(fields[1..], delim, c);
    }
  }

  /** get_driver_3_param's null test: the token "NULL", in any case,
      stands for an empty parameter. */
  function NullParam(tok: Option<string>): (r: Option<string>)
    ensures r.None? <==> tok.None? || EqualsIgnoreCase(tok.value, "NULL")
    ensures r.Some? ==> r == tok
  {
    if tok.Some? && EqualsIgnoreCase(tok.value, "NULL") then None else tok
  }

  /** What get_driver_3_param returns for the text still to scan, and
      the text left after it. */
  function Param(s: string, delim: char): (Option<string>, string)
  {
    (NullParam(StrTok(s, delim).0), StrTok(s, delim).1)
  }

  /** get_driver_3_param: the next token, NULL when it reads "NULL". */
  method GetDriver3Param(s: string, delim: char) returns (param: Option<string>, rest: string)
    ensures (param, rest) == Param(s, delim)
  {
    var tok;
    tok, rest := StrTok(s, delim).0, StrTok(s, delim).1;
    if tok.Some? && EqualsIgnoreCase(tok.value, "NULL") {
      tok := None;
    }
    param := tok;
  }

  /** The dependent-file loop: collects each ','-token of `s` with
      add_string_to_array. */
  method CollectFiles(s: string) returns (files: seq<string>)
    ensures files == Tokens(s, ',')
  {
    files := [];
    var tok, save := StrTok(s, ',').0, StrTok(s, ',').1;
    while tok.Some?
      invariant files + (if tok.Some? then [tok.value] + Tokens(save, ',') else []) == Tokens(s, ',')
      decreases |save| + (if tok.Some? then 1 else 0)
    {
      files := files + [tok.value];
      tok, save := StrTok(save, ',').0, StrTok(save, ',').1;
    }
  }

  /** What init_drv_info_3_members stores for a driver description.
      After seven ':' fields, the eighth is split on ','; when it reads
      "NULL" the ',' scan resumes on the text after it. */
  function ParseDriverArgs(args: string): DriverFields
  {
    var (p1, r1) := Param(args, ':');
    var (p2, r2) := Param(r1, ':');
    var (p3, r3) := Param(r2, ':');
    var (p4, r4) := Param(r3, ':');
    var (p5, r5) := Param(r4, ':');
    var (p6, r6) := Param(r5, ':');
    var (p7, r7) := Param(r6, ':');
    var (p8, r8) := Param(r7, ':');
    var files := Tokens(if p8.Some? then p8.value else r8, ',');
    DriverFields(p1, p2, p3, p4, p5, p6, p7, if |files| == 0 then None else Some(files))
  }

  /** No field reads "NULL" in any case. */
  predicate NoNullWord(fields: seq<string>)
  {
    forall k :: 0 <= k < |fields| ==> !EqualsIgnoreCase(fields[k], "NULL")
  }

  /** get_driver_3_param on joined fields returns the first field and
      leaves the rest joined. */
  lemma ParamJoin(fields: seq<string>, k: nat)
    requires k < |fields| && Plain(fields, ':') && !EqualsIgnoreCase(fields[k], "NULL")
    ensures Param(Join(fields[k..], ':'), ':') == (Some(fields[k]), Join(fields[k + 1..], ':'))
  {
    assert Plain(fields[k..], ':');
    StrTokJoin(fields[k..], ':');
    assert fields[k..][1..] == fields[k + 1..];
  }

  /** The dependent files init_drv_info_3_members reads from the text
      after the seventh field. */
  function FilesAfter(rest: string): Option<seq<string>>
  {
    var (p8, r8) := Param(rest, ':');
    var files := Tokens(if p8.Some? then p8.value else r8, ',');
    if |files| == 0 then None else Some(files)
  }

  /** Seven parameters read one after the other, each from the text the
      previous one left. */
  lemma ParseChain(args: string, params: seq<string>, rests: seq<string>)
    requires |params| == 7 && |rests| == 8 && rests[0] == args
    requires forall k :: 0 <= k < 7 ==> Param(rests[k], ':') == (Some(params[k]), rests[k + 1])
    ensures ParseDriverArgs(args) ==
      DriverFields(Some(params[0]), Some(params[1]), Some(params[2]), Some(params[3]),
                   Some(params[4]), Some(params[5]), Some(params[6]), FilesAfter(rests[7]))
  {
  }

  /** Seven joined fields come back as the first seven parameters. */
  lemma ParseJoined(fields: seq<string>)
    requires 7 <= |fields| && Plain(fields, ':') && NoNullWord(fields[..7])
    ensures ParseDriverArgs(Join(fields, ':')) ==
      DriverFields(Some(fields[0]), Some(fields[1]), Some(fields[2]), Some(fields[3]),
                   Some(fields[4]), Some(fields[5]), Some(fields[6]), FilesAfter(Join(fields[7..], ':')))
  {
    var rests := seq(8, k requires 0 <= k < 8 => Join(fields[k..], ':'));
    assert fields[0..] == fields;
    forall k | 0 <= k < 7
      ensures Param(rests[k], ':') == (Some(fields[k]), rests[k + 1])
    {
      assert fields[..7][k] == fields[k];
      ParamJoin(fields, k);
    }
    ParseChain(Join(fields, ':'), fields[..7], rests);
  }

  /** A description written out from seven fields and a non-empty file
      list parses back to them. */
  lemma DriverArgsRoundTrip(f: seq<string>, files: seq<string>)
    requires |f| == 7 && Plain(f, ':') && NoNullWord(f)
    requires |files| > 0 && Plain(files, ',')
    requires forall k :: 0 <= k < |files| ==> ':' !in files[k]
    requires !EqualsIgnoreCase(Join(files, ','), "NULL")
    ensures ParseDriverArgs(Join(f + [Join(files, ',')], ':')) ==
      DriverFields(Some(f[0]), Some(f[1]), Some(f[2]), Some(f[3]), Some(f[4]), Some(f[5]), Some(f[6]), Some(files))
  {
    JoinAvoids(files, ',', ':');
    var all := f + [Join(files, ',')];
    assert Plain(all, ':');
    assert all[..7] == f;
    ParseJoined(all);
    ParamJoin(all, 7);
    assert all[8..] == [];
    TokensJoin(files, ',');
  }

  /** Without dependent files the field stays unset. */
  lemma NoDependentFiles(f: seq<string>)
    requires |f| == 7 && Plain(f, ':') && NoNullWord(f)
    ensures ParseDriverArgs(Join(f, ':')) ==
      DriverFields(Some(f[0]), Some(f[1]), Some(f[2]), Some(f[3]), Some(f[4]), Some(f[5]), Some(f[6]), None)
  {
    assert f[..7] == f;
    ParseJoined(f);
    assert f[7..] == [];
  }

  // ---------------------------------------------------------------------
  // enumdrivers and deletedriverex

  /** The architectures enumdrivers asks for: a row is skipped when its
      long name equals the previous row's up to case. */
  function QueriedArchs(table: seq<TableNode>): seq<string>
  {
    if |table| == 0 then []
    else
      var n := |table| - 1;
      QueriedArchs(table[..n]) +
        (if n > 0 && EqualsIgnoreCase(table[n].longArchi, table[n - 1].longArchi) then [] else [table[n].longArchi])
  }

  /** The enumdrivers loop over the table. */
  method EnumDriverArchs(table: seq<TableNode>) returns (queried: seq<string>)
    ensures queried == QueriedArchs(table)
  {
    queried := [];
    var i := 0;
    while i < |table|
      invariant 0 <= i <= |table|
      invariant queried == QueriedArchs(table[..i])
    {
      assert table[..i + 1][..i] == table[..i];
      if !(i > 0 && EqualsIgnoreCase(table[i].longArchi, table[i - 1].longArchi)) {
        queried := queried + [table[i].longArchi];
      }
      i := i + 1;
    }
    assert table[..i] == table;
  }

  /** Rows of one architecture (up to case) are adjacent. */
  predicate Grouped(table: seq<TableNode>)
  {
    forall i, j, k :: 0 <= i < j < k < |table| && Upper(table[i].longArchi) == Upper(table[k].longArchi) ==>
      Upper(table[j].longArchi) == Upper(table[i].longArchi)
  }

  /** Every architecture asked for is the long name of a row. */
  lemma {:induction false} QueriedFrom(table: seq<TableNode>, n: nat)
    requires n <= |table|
    ensures forall x :: x in QueriedArchs(table[..n]) ==> exists i :: 0 <= i < n && x == table[i].longArchi
  {
    if n > 0 {
      assert table[..n][..n - 1] == table[..n - 1];
      QueriedFrom(table, n - 1);
    }
  }

  /** Some architecture of `queried` is `name` up to case. */
  predicate AskedFor(queried: seq<string>, name: string)
  {
    exists x :: x in queried && EqualsIgnoreCase(x, name)
  }

  /** Every row's architecture is asked for. */
  lemma {:induction false} QueriedCovers(table: seq<TableNode>, n: nat)
    requires n <= |table|
    ensures forall i :: 0 <= i < n ==> AskedFor(QueriedArchs(table[..n]), table[i].longArchi)
  {
    if n > 0 {
      assert table[..n][..n - 1] == table[..n - 1];
      QueriedCovers(table, n - 1);
      var q := QueriedArchs(table[..n - 1]);
      var r := QueriedArchs(table[..n]);
      assert table[..n][n - 1] == table[n - 1];
      assert n > 1 ==> table[..n][n - 2] == table[n - 2];
      assert forall x :: x in q ==> x in r;
      forall i | 0 <= i < n
        ensures AskedFor(r, table[i].longArchi)
      {
        if i < n - 1 {
          var x :| x in q && EqualsIgnoreCase(x, table[i].longArchi);
          assert x in r;
        } else if n > 1 && EqualsIgnoreCase(table[n - 1].longArchi, table[n - 2].longArchi) {
          var x :| x in q && EqualsIgnoreCase(x, table[n - 2].longArchi);
          assert x in r;
        } else {
          assert table[n - 1].longArchi in r;
        }
      }
    }
  }

  /** In a grouped table no architecture is asked for twice. */
  lemma {:induction false} QueriedDistinct(table: seq<TableNode>, n: nat)
    requires n <= |table| && Grouped(table)
    ensures forall a, b :: 0 <= a < b < |QueriedArchs(table[..n])| ==>
      !EqualsIgnoreCase(QueriedArchs(table[..n])[a], QueriedArchs(table[..n])[b])
  {
    if n > 0 {
      assert table[..n][..n - 1] == table[..n - 1];
      QueriedDistinct(table, n - 1);
      var q := QueriedArchs(table[..n - 1]);
      var last := table[n - 1];
      if n > 1 && !EqualsIgnoreCase(last.longArchi, table[n - 2].longArchi) {
        QueriedFrom(table, n - 1);
        forall x | x in q ensures !EqualsIgnoreCase(x, last.longArchi) {
          var i :| 0 <= i < n - 1 && x == table[i].longArchi;
        }
        assert QueriedArchs(table[..n]) == q + [last.longArchi];
      }
    }
  }

  /** Every architecture of a grouped table is asked for exactly once. */
  lemma QueriedOnce(table: seq<TableNode>)
    requires Grouped(table)
    ensures forall i :: 0 <= i < |table| ==> AskedFor(QueriedArchs(table), table[i].longArchi)
    ensures forall a, b :: 0 <= a < b < |QueriedArchs(table)| ==> !EqualsIgnoreCase(QueriedArchs(table)[a], QueriedArchs(table)[b])
  {
    assert table[..|table|] == table;
    QueriedCovers(table, |table|);
    QueriedDistinct(table, |table|);

  }

  /** The table keeps each architecture's rows together. */
  lemma ArchiTableGrouped()
    ensures Grouped(ArchiTable)
  {
    var t := ArchiTable;
    forall i, k | 0 <= i < k < |t| && Upper(t[i].longArchi) == Upper(t[k].longArchi)
      ensures i == 1 && k == 2
    {
      SignatureOfUpper(t[i].longArchi, t[k].longArchi);
      ArchiSignatures();
    }
  }

  /** WERROR values deletedriverex returns. */
  const WERR_OK: nat := 0
  const WERR_INVALID_PARAM: nat := 87
  const WERR_UNKNOWN_PRINTER_DRIVER: nat := 1797

  /** The DeletePrinterDriverEx flag that restricts it to one version. */
  const DPD_DELETE_SPECIFIC_VERSION: nat := 0x0000_0002

  /** One DeletePrinterDriverEx request: architecture, driver name, flags
      and version. */
  datatype DeleteCall = DeleteCall(architecture: string, driver: string, flags: nat, version: int)

  /** A row deletedriverex acts on: it matches the architecture when one
      is given (up to case) and the version when it is not negative. */
  predicate Selects(row: TableNode, arch: Option<string>, vers: int)
  {
    (arch.None? || EqualsIgnoreCase(row.longArchi, arch.value)) && (vers < 0 || row.version == vers)
  }

  /** The selected rows in table order. */
  function SelectRows(table: seq<TableNode>, arch: Option<string>, vers: int): (r: seq<TableNode>)
    ensures |r| <= |table|
  {
    if |table| == 0 then []
    else
      var n := |table| - 1;
      SelectRows(table[..n], arch, vers) + (if Selects(table[n], arch, vers) then [table[n]] else [])
  }

  /** The rows acted on are exactly the rows that match. */
  lemma {:induction false} SelectRowsMembers(table: seq<TableNode>, arch: Option<string>, vers: int)
    ensures forall row :: row in SelectRows(table, arch, vers) <==> row in table && Selects(row, arch, vers)
    decreases |table|
  {
    if |table| > 0 {
      var n := |table| - 1;
      SelectRowsMembers(table[..n], arch, vers);
      assert table == table[..n] + [table[n]];
    }
  }

  /** The requests for the selected rows, in table order. */
  function DeleteCalls(rows: seq<TableNode>, driver: string, flags: nat): (r: seq<DeleteCall>)
    ensures |r| == |rows|
  {
    if |rows| == 0 then []
    else
      var last := rows[|rows| - 1];
      DeleteCalls(rows[..|rows| - 1], driver, flags) + [DeleteCall(last.longArchi, driver, flags, last.version)]
  }

  /** Request k names row k's long architecture and version. */
  lemma {:induction false} DeleteCallsAt(rows: seq<TableNode>, driver: string, flags: nat)
    ensures forall k :: 0 <= k < |rows| ==>
      DeleteCalls(rows, driver, flags)[k] == DeleteCall(rows[k].longArchi, driver, flags, rows[k].version)
    decreases |rows|
  {
    if |rows| > 0 {
      DeleteCallsAt(rows[..|rows| - 1], driver, flags);
    }
  }

  /** cmd_spoolss_deletedriverex over `table` (archi_table in the
      source).  `args` includes the command name;
      `atoi` converts the version argument and `delete` is the server's
      answer to a request.  It returns the WERROR and the requests made. */
  method DeleteDriverEx(table: seq<TableNode>, args: seq<string>, atoi: string -> int, delete: DeleteCall -> nat)
    returns (ret: nat, calls: seq<DeleteCall>)
    ensures |args| < 2 || |args| > 4 ==> ret == WERR_OK && calls == []
    ensures 2 <= |args| <= 4 ==>
      var arch := if |args| >= 3 then Some(args[2]) else None;
      var vers := if |args| == 4 then atoi(args[3]) else -1;
      var flags: nat := if vers >= 0 then DPD_DELETE_SPECIFIC_VERSION else 0;
      && calls == DeleteCalls(SelectRows(table, arch, vers), args[1], flags)
      && ret == DeleteResult(calls, delete)
  {
    if |args| < 2 || |args| > 4 {
      return WERR_OK, [];
    }
    var arch: Option<string> := None;
    var vers := -1;
    if |args| >= 3 {
      arch := Some(args[2]);
    }
    if |args| == 4 {
      vers := atoi(args[3]);
    }
    var flags: nat := 0;
    if vers >= 0 {
      flags := DPD_DELETE_SPECIFIC_VERSION;
    }
    ret, calls := DeleteRows(table, arch, vers, args[1], flags, delete);
  }

  /** The WERROR deletedriverex ends with after the given requests:
      WERR_OK once any succeeded, WERR_UNKNOWN_PRINTER_DRIVER otherwise. */
  function DeleteResult(calls: seq<DeleteCall>, delete: DeleteCall -> nat): (r: nat)
    ensures r == WERR_OK || r == WERR_UNKNOWN_PRINTER_DRIVER
  {
    if |calls| == 0 then WERR_UNKNOWN_PRINTER_DRIVER
    else if delete(calls[|calls| - 1]) == WERR_OK then WERR_OK
    else DeleteResult(calls[..|calls| - 1], delete)
  }

  /** The result is WERR_OK exactly when some request succeeded. */
  lemma {:induction false} DeleteResultOk(calls: seq<DeleteCall>, delete: DeleteCall -> nat)
    ensures DeleteResult(calls, delete) == WERR_OK <==> exists c :: c in calls && delete(c) == WERR_OK
    decreases |calls|
  {
    if |calls| > 0 {
      var init := calls[..|calls| - 1];
      DeleteResultOk(init, delete);
      assert calls == init + [calls[|calls| - 1]];
    }
  }

  /** The deletedriverex loop: one request per selected row. */
  method DeleteRows(table: seq<TableNode>, arch: Option<string>, vers: int, driver: string, flags: nat,
                    delete: DeleteCall -> nat) returns (ret: nat, calls: seq<DeleteCall>)
    ensures calls == DeleteCalls(SelectRows(table, arch, vers), driver, flags)
    ensures ret == DeleteResult(calls, delete)
  {
    ret := WERR_UNKNOWN_PRINTER_DRIVER;
    calls := [];
    var i := 0;
    while i < |table|
      invariant 0 <= i <= |table|
      invariant calls == DeleteCalls(SelectRows(table[..i], arch, vers), driver, flags)
      invariant ret == DeleteResult(calls, delete)
    {
      var row := table[i];
      ghost var rows := SelectRows(table[..i], arch, vers);
      SelectRowsStep(table, arch, vers, i);
      if Selects(row, arch, vers) {
        var call := DeleteCall(row.longArchi, driver, flags, row.version);
        DeleteCallsStep(rows, row, driver, flags);
        DeleteResultStep(calls, call, delete);
        calls := calls + [call];
        if delete(call) == WERR_OK {
          ret := WERR_OK;
        }
      }
      i := i + 1;
    }
    assert table[..i] == table;
  }

  lemma SelectRowsStep(table: seq<TableNode>, arch: Option<string>, vers: int, i: nat)
    requires i < |table|
    ensures Selects(table[i], arch, vers) ==>
      SelectRows(table[..i + 1], arch, vers) == SelectRows(table[..i], arch, vers) + [table[i]]
    ensures !Selects(table[i], arch, vers) ==>
      SelectRows(table[..i + 1], arch, vers) == SelectRows(table[..i], arch, vers)
  {
    assert table[..i + 1][..i] == table[..i];
    assert SelectRows(table[..i], arch, vers) + [] == SelectRows(table[..i], arch, vers);
  }

  lemma DeleteCallsStep(rows: seq<TableNode>, row: TableNode, driver: string, flags: nat)
    ensures DeleteCalls(rows + [row], driver, flags)
      == DeleteCalls(rows, driver, flags) + [DeleteCall(row.longArchi, driver, flags, row.version)]
  {
    assert (rows + [row])[..|rows|] == rows;
  }

  lemma DeleteResultStep(calls: seq<DeleteCall>, call: DeleteCall, delete: DeleteCall -> nat)
    ensures DeleteResult(calls + [call], delete)
      == if delete(call) == WERR_OK then WERR_OK else DeleteResult(calls, delete)
  {
    assert (calls + [call])[..|calls|] == calls;
  }

  // ---------------------------------------------------------------------
  // setprinterdata and forms

  /** enum winreg_Type, the values setprinterdata can name. */
  const REG_NONE: nat := 0
  const REG_SZ: nat := 1
  const REG_BINARY: nat := 3
  const REG_DWORD: nat := 4
  const REG_MULTI_SZ: nat := 7

  /** The type keyword tests, in source order. */
  function RegTypeOf(keyword: string): (t: nat)
    ensures t == REG_SZ <==> EqualsIgnoreCase(keyword, "string")
    ensures t == REG_BINARY <==> EqualsIgnoreCase(keyword, "binary")
    ensures t == REG_DWORD <==> EqualsIgnoreCase(keyword, "dword")
    ensures t == REG_MULTI_SZ <==> EqualsIgnoreCase(keyword, "multistring")
    ensures t in {REG_NONE, REG_SZ, REG_BINARY, REG_DWORD, REG_MULTI_SZ}
  {
    assert |Upper("string")| == 6 && |Upper("binary")| == 6 && |Upper("dword")| == 5 && |Upper("multistring")| == 11;
    assert Upper("string")[0] == 'S' && Upper("binary")[0] == 'B';
    var t0 := REG_NONE;
    var t1 := if EqualsIgnoreCase(keyword, "string") then REG_SZ else t0;
    var t2 := if EqualsIgnoreCase(keyword, "binary") then REG_BINARY else t1;
    var t3 := if EqualsIgnoreCase(keyword, "dword") then REG_DWORD else t2;
    if EqualsIgnoreCase(keyword, "multistring") then REG_MULTI_SZ else t3
  }

  /** cmd_spoolss_setprinterdata up to opening the printer: the value
      type, or WERR_INVALID_PARAM for too few arguments or an unknown type
      keyword. */
  function SetPrinterDataType(args: seq<string>): (r: Result<nat, nat>)
    ensures r.Err? ==> r.error == WERR_INVALID_PARAM
    ensures r.Err? <==> |args| < 5 || RegTypeOf(args[2]) == REG_NONE
    ensures r.Ok? ==> r.value == RegTypeOf(args[2]) && r.value != REG_NONE
  {
    if |args| < 5 then Err(WERR_INVALID_PARAM)
    else
      var t := RegTypeOf(args[2]);
      if t == REG_NONE then Err(WERR_INVALID_PARAM) else Ok(t)
  }

  /** The form kinds. */
  const SPOOLSS_FORM_USER: int := 0
  const SPOOLSS_FORM_BUILTIN: int := 1
  const SPOOLSS_FORM_PRINTER: int := 2

  /** get_form_flag. */
  function FormFlagName(flag: int): (r: string)
    ensures r == "unknown" <==> flag !in {SPOOLSS_FORM_USER, SPOOLSS_FORM_BUILTIN, SPOOLSS_FORM_PRINTER}
  {
    if flag == SPOOLSS_FORM_USER then "FORM_USER"
    else if flag == SPOOLSS_FORM_BUILTIN then "FORM_BUILTIN"
    else if flag == SPOOLSS_FORM_PRINTER then "FORM_PRINTER"
    else "unknown"
  }

  /** Each form kind has its own name. */
  lemma FormFlagNamesDistinct(a: int, b: int)
    requires FormFlagName(a) != "unknown" && FormFlagName(a) == FormFlagName(b)
    ensures a == b
  {
    assert "FORM_USER"[5] == 'U' && "FORM_BUILTIN"[5] == 'B' && "FORM_PRINTER"[5] == 'P';
  }
}
