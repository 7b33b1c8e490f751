/** libpepeye/statstablemodel.py, class StatRow: one entry of a pstats
    dictionary flattened into a row record, and the nine sort keys of the
    table's columns. */
module StatRows {
  import opened PyBase
  import opened PyStr
  import opened PyOrder

  /** A pstats dictionary key: (file, line number, function name). */
  datatype StatsKey = StatsKey(file: string, line: int, funcName: string)

  /** One entry of a caller dictionary: (primitive calls, calls, time,
      cumulative time). The rows carry it along and nothing reads it. */
  datatype CallerStats = CallerStats(primCalls: int, numCalls: int, time: real, cumTime: real)

  /** A pstats dictionary value: (primitive calls, calls, time, cumulative
      time, callers). Times are exact numbers; float rounding is not modelled. */
  datatype StatsValue = StatsValue(primCalls: int, numCalls: int, time: real, cumTime: real,
                                   callers: map<StatsKey, CallerStats>)

  /** One statistics row. Rows are objects: the table finds a row by identity,
      so two rows built from equal entries are still different rows. Nothing
      changes a row after its construction; the base name and the lower-cased
      copies of the text fields are derived from the entry's fields. */
  class StatRow {
    const filePath: string
    const lineNr: int
    const functionName: string
    const numPrimCalls: int
    const numCalls: int
    const time: real
    const cumTime: real
    const callers: map<StatsKey, CallerStats>
    const timePerCall: real
    const cumTimePerCall: real
    const fileName: string := Basename(filePath)
    const lcFileName: string := Lower(fileName)
    const lcFilePath: string := Lower(filePath)
    const lcFunctionName: string := Lower(functionName)

    /** The row holds what StatRow(k, v) computes from the entry (k, v): the
        entry's own fields and the two per-call ratios. */
    ghost predicate BuiltFrom(k: StatsKey, v: StatsValue) {
      filePath == k.file && lineNr == k.line && functionName == k.funcName &&
      numPrimCalls == v.primCalls && numCalls == v.numCalls &&
      time == v.time && cumTime == v.cumTime && callers == v.callers &&
      numCalls != 0 && numPrimCalls != 0 &&
      timePerCall == time / numCalls as real &&
      cumTimePerCall == cumTime / numPrimCalls as real
    }

    /** StatRow(statsKey, statsValue) for an entry whose counts are non-zero. */
    constructor (k: StatsKey, v: StatsValue)
      requires v.numCalls != 0 && v.primCalls != 0
      ensures BuiltFrom(k, v)
    {
      filePath, lineNr, functionName := k.file, k.line, k.funcName;
      numPrimCalls, numCalls, time, cumTime, callers := v.primCalls, v.numCalls, v.time, v.cumTime, v.callers;
      timePerCall := v.time / v.numCalls as real;
      cumTimePerCall := v.cumTime / v.primCalls as real;
    }
  }

  /** StatRow(statsKey, statsValue): the divisions by the two call counts are
      unguarded, so a zero count raises ZeroDivisionError. */
  method NewStatRow(k: StatsKey, v: StatsValue) returns (r: Outcome<StatRow>)
    ensures r.Ok? <==> v.numCalls != 0 && v.primCalls != 0
    ensures r.Raise? ==> r.exc == ZeroDivisionError
    ensures r.Ok? ==> fresh(r.value) && r.value.BuiltFrom(k, v)
  {
    if v.numCalls == 0 || v.primCalls == 0 {
      return Raise(ZeroDivisionError);
    }
    var row := new StatRow(k, v);
    return Ok(row);
  }

  /** The lower-cased file name is the tail of the lower-cased path, after its
      last '/'. */
  lemma FileNameIsPathTail(r: StatRow)
    ensures |r.lcFileName| <= |r.lcFilePath|
    ensures r.lcFileName == r.lcFilePath[|r.lcFilePath| - |r.lcFileName|..]
    ensures '/' !in r.lcFileName
  {
    LowerSuffix(r.filePath, r.fileName);
    LowerKeepsNonLetter(r.fileName, '/');
  }

  function IntPart(n: int): KeyPart {
    Num(n as real)
  }

  /** keyPathAndLine: (lcFilePath, lineNr, lcFunctionName). */
  function KeyPathAndLine(r: StatRow): Key {
    [Str(r.lcFilePath), IntPart(r.lineNr), Str(r.lcFunctionName)]
  }

  /** keyFileAndLine: (lcFileName, lineNr, lcFunctionName). */
  function KeyFileAndLine(r: StatRow): Key {
    [Str(r.lcFileName), IntPart(r.lineNr), Str(r.lcFunctionName)]
  }

  /** keyFunctionName: (lcFunctionName, lcFilePath, lineNr). */
  function KeyFunctionName(r: StatRow): Key {
    [Str(r.lcFunctionName), Str(r.lcFilePath), IntPart(r.lineNr)]
  }

  /** keyNumCalls: (numCalls, lcFilePath, lineNr, lcFunctionName). */
  function KeyNumCalls(r: StatRow): Key {
    [IntPart(r.numCalls), Str(r.lcFilePath), IntPart(r.lineNr), Str(r.lcFunctionName)]
  }

  /** keyTime: (time, lcFilePath, lineNr, lcFunctionName). */
  function KeyTime(r: StatRow): Key {
    [Num(r.time), Str(r.lcFilePath), IntPart(r.lineNr), Str(r.lcFunctionName)]
  }

  /** keyTimePerCall: (timePerCall, lcFilePath, lineNr, lcFunctionName). */
  function KeyTimePerCall(r: StatRow): Key {
    [Num(r.timePerCall), Str(r.lcFilePath), IntPart(r.lineNr), Str(r.lcFunctionName)]
  }

  /** keyNumPrimCalls: (numPrimCalls, lcFilePath, lineNr, lcFunctionName). */
  function KeyNumPrimCalls(r: StatRow): Key {
    [IntPart(r.numPrimCalls), Str(r.lcFilePath), IntPart(r.lineNr), Str(r.lcFunctionName)]
  }

  /** keyCumTime: (cumTime, lcFilePath, lineNr, lcFunctionName). */
  function KeyCumTime(r: StatRow): Key {
    [Num(r.cumTime), Str(r.lcFilePath), IntPart(r.lineNr), Str(r.lcFunctionName)]
  }

  /** keyCumTimePerCall: (cumTimePerCall, lcFilePath, lineNr, lcFunctionName). */
  function KeyCumTimePerCall(r: StatRow): Key {
    [Num(r.cumTimePerCall), Str(r.lcFilePath), IntPart(r.lineNr), Str(r.lcFunctionName)]
  }

  /** SORT_KEY_METHODS[col] applied to `r`, for a column in [0, 9). */
  function KeyFor(col: nat, r: StatRow): Key
    requires col < 9
  {
    match col
    case 0 => KeyPathAndLine(r)
    case 1 => KeyFileAndLine(r)
    case 2 => KeyFunctionName(r)
    case 3 => KeyNumCalls(r)
    case 4 => KeyTime(r)
    case 5 => KeyTimePerCall(r)
    case 6 => KeyNumPrimCalls(r)
    case 7 => KeyCumTime(r)
    case 8 => KeyCumTimePerCall(r)
  }

  /** The value a numeric column (3 to 8) shows and sorts by. */
  function NumericValue(col: nat, r: StatRow): real
    requires 3 <= col < 9
  {
    match col
    case 3 => r.numCalls as real
    case 4 => r.time
    case 5 => r.timePerCall
    case 6 => r.numPrimCalls as real
    case 7 => r.cumTime
    case 8 => r.cumTimePerCall
  }

  /** The path-and-line key orders by lower-cased path, then line number, then
      lower-cased function name. */
  lemma PathAndLineOrder(a: StatRow, b: StatRow)
    ensures KeyLess(KeyPathAndLine(a), KeyPathAndLine(b)) <==>
            StrLess(a.lcFilePath, b.lcFilePath) ||
            (a.lcFilePath == b.lcFilePath &&
             (a.lineNr < b.lineNr ||
              (a.lineNr == b.lineNr && StrLess(a.lcFunctionName, b.lcFunctionName))))
  {
    KeyLessTriple(Str(a.lcFilePath), IntPart(a.lineNr), Str(a.lcFunctionName),
                  Str(b.lcFilePath), IntPart(b.lineNr), Str(b.lcFunctionName));
  }

  /** The file-and-line key orders by lower-cased base name, then line number,
      then lower-cased function name. */
  lemma FileAndLineOrder(a: StatRow, b: StatRow)
    ensures KeyLess(KeyFileAndLine(a), KeyFileAndLine(b)) <==>
            StrLess(a.lcFileName, b.lcFileName) ||
            (a.lcFileName == b.lcFileName &&
             (a.lineNr < b.lineNr ||
              (a.lineNr == b.lineNr && StrLess(a.lcFunctionName, b.lcFunctionName))))
  {
    KeyLessTriple(Str(a.lcFileName), IntPart(a.lineNr), Str(a.lcFunctionName),
                  Str(b.lcFileName), IntPart(b.lineNr), Str(b.lcFunctionName));
  }

  /** The function key orders by lower-cased function name, then lower-cased
      path, then line number. */
  lemma FunctionNameOrder(a: StatRow, b: StatRow)
    ensures KeyLess(KeyFunctionName(a), KeyFunctionName(b)) <==>
            StrLess(a.lcFunctionName, b.lcFunctionName) ||
            (a.lcFunctionName == b.lcFunctionName &&
             (StrLess(a.lcFilePath, b.lcFilePath) ||
              (a.lcFilePath == b.lcFilePath && a.lineNr < b.lineNr)))
  {
    KeyLessTriple(Str(a.lcFunctionName), Str(a.lcFilePath), IntPart(a.lineNr),
                  Str(b.lcFunctionName), Str(b.lcFilePath), IntPart(b.lineNr));
  }

  /** A numeric column orders by its value; rows with equal values are ordered
      by the path-and-line key. */
  lemma NumericOrder(col: nat, a: StatRow, b: StatRow)
    requires 3 <= col < 9
    ensures KeyLess(KeyFor(col, a), KeyFor(col, b)) <==>
            NumericValue(col, a) < NumericValue(col, b) ||
            (NumericValue(col, a) == NumericValue(col, b) &&
             KeyLess(KeyPathAndLine(a), KeyPathAndLine(b)))
  {
    var va, vb := Num(NumericValue(col, a)), Num(NumericValue(col, b));
    assert KeyFor(col, a) == [va] + KeyPathAndLine(a);
    assert KeyFor(col, b) == [vb] + KeyPathAndLine(b);
    if va == vb {
      KeyLessSameHead(va, KeyPathAndLine(a), KeyPathAndLine(b));
    } else {
      KeyLessDifferentHead(va, vb, KeyPathAndLine(a), KeyPathAndLine(b));
    }
  }

  /** Every column's key ends in a tie-break on the row's location: rows with
      equal keys have the same lower-cased function name and line number, and
      the same lower-cased path (the same lower-cased base name for the
      file column). */
  lemma EqualKeysSameLocation(col: nat, a: StatRow, b: StatRow)
    requires col < 9 && KeyFor(col, a) == KeyFor(col, b)
    ensures a.lcFunctionName == b.lcFunctionName && a.lineNr == b.lineNr
    ensures col != 1 ==> a.lcFilePath == b.lcFilePath
    ensures col == 1 ==> a.lcFileName == b.lcFileName
  {
    var ka, kb := KeyFor(col, a), KeyFor(col, b);
    if col == 0 || col == 1 {
      assert ka[0] == kb[0] && ka[1] == kb[1] && ka[2] == kb[2];
    } else if col == 2 {
      assert ka[0] == kb[0] && ka[1] == kb[1] && ka[2] == kb[2];
    } else {
      assert ka[1] == kb[1] && ka[2] == kb[2] && ka[3] == kb[3];
    }
  }
}
