/**
 * The cap-file writer pass (`hello` in Transforms/FunctionName): when a
 * cap-file directory is configured it writes `<dir>/<source stem>.cap`, one
 * `name:id` line per function defined in the module, every line carrying the
 * unit's default compartment id (290 unless one was given on the command
 * line). It never changes the module.
 */
module CapFile {
  import opened Wrappers
  import opened Text
  import opened IR

  /** The range of a `cl::opt<unsigned>`. */
  type Uint32 = x: int | 0 <= x < 0x1_0000_0000

  /** The compartment id the pass assigns when `-default-compartment` was not given. */
  const FallbackCompartment: Uint32 := 290

  /**
   * `stem` is `name` cut just before its last `.`, or all of `name` when it
   * has no `.` (the `substr(0, npos)` case).
   */
  predicate IsStem(stem: string, name: string)
  {
    && stem <= name
    && ('.' !in name ==> stem == name)
    && ('.' in name ==> |stem| < |name| && name[|stem|] == '.' && '.' !in name[|stem| + 1..])
  }

  /** `name.substr(0, name.find_last_of("."))`. */
  function StripExtension(name: string): (stem: string)
    ensures IsStem(stem, name)
  {
    match FindLastOf(name, '.')
    case None => name
    case Some(i) => name[..i]
  }

  /** The stem of a name is determined: at most one prefix meets `IsStem`. */
  lemma StemUnique(a: string, b: string, name: string)
    requires IsStem(a, name) && IsStem(b, name)
    ensures a == b
  {
  }

  /**
   * The cut is at the last `.` anywhere in the name, even one inside a
   * directory component: the stem of `pre + "." + rest` is `pre` whenever
   * `rest` holds no `.`, whatever `/` characters either part holds.
   */
  lemma StemAtLastDot(pre: string, rest: string)
    requires '.' !in rest
    ensures StripExtension(pre + "." + rest) == pre
  {
    FindLastOfSeparator(pre, '.', rest);
    assert (pre + "." + rest)[..|pre|] == pre;
  }

  /** The path of the cap file: the directory, `/`, the source stem with its `/`s kept, then `.cap`. */
  function CapPath(dir: string, sourceFileName: string): (path: string)
    ensures |path| >= |dir| + 5
    ensures path[..|dir| + 1] == dir + "/" && path[|path| - 4..] == ".cap"
    ensures IsStem(path[|dir| + 1..|path| - 4], sourceFileName)
  {
    var stem := StripExtension(sourceFileName);
    var path := dir + "/" + stem + ".cap";
    assert path[|dir| + 1..|path| - 4] == stem;
    path
  }

  /** One line of the cap file: a function name and a compartment id. */
  datatype Record = Record(name: string, id: nat)

  /** The text written for one record: `name:id` and a newline. */
  function Line(r: Record): (l: string)
    ensures |l| >= |r.name| + 3 && l[|l| - 1] == '\n'
  {
    r.name + ":" + Decimal(r.id) + "\n"
  }

  /** The text written for a list of records, in order. */
  function Ledger(rs: seq<Record>): (s: string)
    ensures |s| >= 3 * |rs| && (s == [] <==> rs == [])
    ensures s != [] ==> s[|s| - 1] == '\n'
  {
    if rs == [] then "" else Line(rs[0]) + Ledger(rs[1..])
  }

  /** The record one function contributes: none for a declaration. */
  function RecordOf(f: Function, id: nat): (rs: seq<Record>)
    ensures |rs| == (if f.IsDeclaration() then 0 else 1)
    ensures forall r :: r in rs ==> r == Record(f.name, id)
  {
    if f.IsDeclaration() then [] else [Record(f.name, id)]
  }

  /** The records for a function list, in module order, all with compartment `id`. */
  function Records(functions: seq<Function>, id: nat): (rs: seq<Record>)
    ensures |rs| <= |functions|
    ensures forall k :: 0 <= k < |rs| ==> rs[k].id == id
  {
    if functions == [] then [] else RecordOf(functions[0], id) + Records(functions[1..], id)
  }

  /** The number of functions in the list that have a body. */
  function CountDefined(functions: seq<Function>): nat
  {
    if functions == [] then 0
    else (if functions[0].IsDeclaration() then 0 else 1) + CountDefined(functions[1..])
  }

  /** Exactly one record is written per defined function. */
  lemma {:induction false} RecordsCount(functions: seq<Function>, id: nat)
    ensures |Records(functions, id)| == CountDefined(functions)
  {
    if functions != [] {
      RecordsCount(functions[1..], id);
    }
  }

  /** The records of `a + b` are those of `a` followed by those of `b`: module order is kept. */
  lemma {:induction false} RecordsAppend(a: seq<Function>, b: seq<Function>, id: nat)
    ensures Records(a + b, id) == Records(a, id) + Records(b, id)
  {
    if a == [] {
      assert a + b == b;
    } else {
      assert (a + b)[1..] == a[1..] + b;
      RecordsAppend(a[1..], b, id);
    }
  }

  /** A record is written exactly for the defined functions, and always with compartment `id`. */
  lemma {:induction false} RecordsMembership(functions: seq<Function>, id: nat, r: Record)
    ensures r in Records(functions, id) <==>
      r.id == id && exists f :: f in functions && !f.IsDeclaration() && f.name == r.name
  {
    if functions != [] {
      RecordsMembership(functions[1..], id, r);
      var f0 := functions[0];
      if r.id == id && !f0.IsDeclaration() && f0.name == r.name {
        assert r in RecordOf(f0, id);
      }
      if r.id == id && (exists f :: f in functions && !f.IsDeclaration() && f.name == r.name) {
        var f :| f in functions && !f.IsDeclaration() && f.name == r.name;
        if f != f0 {
          assert f in functions[1..];
        }
      }
      assert forall f :: f in functions[1..] ==> f in functions;
    }
  }

  /** The text of `a + b` is the text of `a` followed by that of `b`. */
  lemma {:induction false} LedgerAppend(a: seq<Record>, b: seq<Record>)
    ensures Ledger(a + b) == Ledger(a) + Ledger(b)
  {
    if a == [] {
      assert a + b == b;
    } else {
      assert (a + b)[1..] == a[1..] + b;
      LedgerAppend(a[1..], b);
    }
  }

  /** The records of a single function are the one it contributes. */
  lemma RecordsOfOne(f: Function, id: nat)
    ensures Records([f], id) == RecordOf(f, id)
  {
    assert [f][1..] == [];
  }

  /** The text of a single function's records: nothing for a declaration, its one line otherwise. */
  lemma LedgerOfOne(f: Function, id: nat)
    ensures Ledger(RecordOf(f, id)) == if f.IsDeclaration() then "" else f.name + ":" + Decimal(id) + "\n"
  {
    if !f.IsDeclaration() {
      var r := Record(f.name, id);
      assert [r][1..] == [];
      assert Ledger([r]) == Line(r) + "";
    }
  }

  /** The first `i + 1` functions are the first `i` and then function `i`. */
  lemma PrefixStep(functions: seq<Function>, i: nat)
    requires i < |functions|
    ensures functions[..i + 1] == functions[..i] + [functions[i]]
  {
  }

  /** One iteration of the writing loop appends the text of the next function's record. */
  lemma WriteRecordStep(functions: seq<Function>, i: nat, id: nat, before: string, after: string)
    requires i < |functions|
    requires before == Ledger(Records(functions[..i], id))
    requires after == if functions[i].IsDeclaration() then before
                      else before + (functions[i].name + ":" + Decimal(id) + "\n")
    ensures after == Ledger(Records(functions[..i + 1], id))
  {
    var f := functions[i];
    PrefixStep(functions, i);
    RecordsOfOne(f, id);
    RecordsAppend(functions[..i], [f], id);
    LedgerAppend(Records(functions[..i], id), RecordOf(f, id));
    assert Ledger(Records(functions[..i + 1], id)) == before + Ledger(RecordOf(f, id));
    LedgerOfOne(f, id);
  }

  /**
   * The loop of the pass: one line per defined function, in module order,
   * appended to the output.
   */
  method WriteRecords(functions: seq<Function>, id: Uint32) returns (contents: string)
    ensures contents == Ledger(Records(functions, id))
  {
    contents := "";
    for i := 0 to |functions|
      invariant contents == Ledger(Records(functions[..i], id))
    {
      var f := functions[i];
      ghost var before := contents;
      if !f.IsDeclaration() {
        contents := contents + (f.name + ":" + Decimal(id) + "\n");
      }
      WriteRecordStep(functions, i, id, before, contents);
    }
    assert functions[..|functions|] == functions;
  }

  /*
   * Reading a cap file back, as a consumer of it would: the text is split
   * into newline-terminated lines and each line at its LAST `:`, the part
   * after it read as a decimal id.
   */

  function ParseRecord(line: string): Option<Record>
  {
    match FindLastOf(line, ':')
    case None => None
    case Some(i) =>
      match ParseDecimal(line[i + 1..])
      case None => None
      case Some(id) => Some(Record(line[..i], id))
  }

  function ParseLedger(text: string): Option<seq<Record>>
    decreases |text|
  {
    if text == [] then Some([])
    else
      match IndexOf(text, '\n')
      case None => None
      case Some(i) =>
        var first := ParseRecord(text[..i]);
        var rest := ParseLedger(text[i + 1..]);
        if first.Some? && rest.Some? then Some([first.value] + rest.value) else None
  }

  /** A text whose first line parses to `r` and whose remaining lines parse to `rest` parses to `[r] + rest`. */
  lemma ParseLedgerFirstLine(text: string, i: nat, r: Record, rest: seq<Record>)
    requires IndexOf(text, '\n') == Some(i)
    requires ParseRecord(text[..i]) == Some(r)
    requires ParseLedger(text[i + 1..]) == Some(rest)
    ensures ParseLedger(text) == Some([r] + rest)
  {
  }

  /** Splitting a written line at its last `:` recovers the record, even when the name holds `:`. */
  lemma LineRoundTrip(r: Record)
    ensures ParseRecord(r.name + ":" + Decimal(r.id)) == Some(r)
  {
    var line := r.name + ":" + Decimal(r.id);
    FindLastOfSeparator(r.name, ':', Decimal(r.id));
    assert line[|r.name| + 1..] == Decimal(r.id);
    assert line[..|r.name|] == r.name;
    DecimalRoundTrip(r.id);
  }

  /** A line followed by a text that reads back reads back with the line's record in front. */
  lemma LineThenRest(r: Record, tail: string, rest: seq<Record>)
    requires '\n' !in r.name
    requires ParseLedger(tail) == Some(rest)
    ensures ParseLedger(Line(r) + tail) == Some([r] + rest)
  {
    var body := r.name + ":" + Decimal(r.id);
    var text := Line(r) + tail;
    assert text == body + ['\n'] + tail;
    IndexOfSeparator(body, '\n', tail);
    assert text[..|body|] == body && text[|body| + 1..] == tail;
    LineRoundTrip(r);
    ParseLedgerFirstLine(text, |body|, r, rest);
  }

  /** Reading back the text written for records whose names hold no newline yields those records. */
  lemma {:induction false} LedgerRoundTrip(rs: seq<Record>)
    requires forall k :: 0 <= k < |rs| ==> '\n' !in rs[k].name
    ensures ParseLedger(Ledger(rs)) == Some(rs)
  {
    if rs != [] {
      LedgerRoundTrip(rs[1..]);
      LineThenRest(rs[0], Ledger(rs[1..]), rs[1..]);
      assert [rs[0]] + rs[1..] == rs;
    }
  }

  /**
   * The cap file of a module whose defined functions have newline-free names
   * reads back as one record per defined function, in module order, each with
   * compartment `id`.
   */
  lemma CapFileReadsBack(functions: seq<Function>, id: Uint32)
    requires forall f :: f in functions && !f.IsDeclaration() ==> '\n' !in f.name
    ensures ParseLedger(Ledger(Records(functions, id))) == Some(Records(functions, id))
  {
    var rs := Records(functions, id);
    forall k | 0 <= k < |rs|
      ensures '\n' !in rs[k].name
    {
      RecordsMembership(functions, id, rs[k]);
    }
    LedgerRoundTrip(rs);
  }

  /** The pass's two command-line options; the pass itself overwrites the default id. */
  class Options {
    var capFilePath: string
    var defaultCompartment: Uint32
    var defaultCompartmentOccurrences: nat

    /** Options as parsed: `given` is the `-default-compartment` value, if it was on the command line. */
    constructor (path: string, given: Option<Uint32>)
      ensures capFilePath == path
      ensures given.Some? ==> defaultCompartment == given.value && defaultCompartmentOccurrences == 1
      ensures given.None? ==> defaultCompartment == 0 && defaultCompartmentOccurrences == 0
    {
      capFilePath := path;
      if given.Some? {
        defaultCompartment, defaultCompartmentOccurrences := given.value, 1;
      } else {
        defaultCompartment, defaultCompartmentOccurrences := 0, 0;
      }
    }
  }

  /** The files the pass can write, by path. */
  class FileSystem {
    var files: map<string, string>

    constructor (initial: map<string, string>)
      ensures files == initial
    {
      files := initial;
    }
  }

  /**
   * `Hello::runOnModule`: with an empty cap-file path it writes nothing and
   * leaves the options alone; otherwise it settles the default compartment
   * (290 unless given) and replaces the cap file's contents with one line per
   * defined function. It reports the module as unmodified either way.
   */
  method RunOnModule(options: Options, m: Module, fs: FileSystem) returns (modified: bool)
    modifies options`defaultCompartment, fs`files
    ensures !modified
    ensures options.capFilePath == "" ==>
      options.defaultCompartment == old(options.defaultCompartment) && fs.files == old(fs.files)
    ensures options.capFilePath != "" ==>
      && options.defaultCompartment ==
           (if options.defaultCompartmentOccurrences > 0 then old(options.defaultCompartment)
            else FallbackCompartment)
      && fs.files == old(fs.files)[CapPath(options.capFilePath, m.sourceFileName) :=
                                     Ledger(Records(m.functions, options.defaultCompartment))]
  {
    if options.capFilePath != "" {
      var capFileName := CapPath(options.capFilePath, m.sourceFileName);
      if !(options.defaultCompartmentOccurrences > 0) {
        options.defaultCompartment := FallbackCompartment;
      }
      var contents := WriteRecords(m.functions, options.defaultCompartment);
      fs.files := fs.files[capFileName := contents];
    }
    modified := false;
  }

  /** `Hello2::runOnFunction`: counts the function and reports no change. */
  method Hello2RunOnFunction(f: Function, helloCounter: Statistic) returns (modified: bool)
    modifies helloCounter
    ensures helloCounter.value == old(helloCounter.value) + 1
    ensures !modified
  {
    helloCounter.value := helloCounter.value + 1;
    modified := false;
  }
}
