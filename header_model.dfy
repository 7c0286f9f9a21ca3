/**
 * ObjcHeader, the object the hook generator builds per header file, and the output file it
 * writes to. Its properties and writers are loops and in-place updates (the cached class
 * name, `_hook_count`, the output file); each is proved equal to the specification
 * functions of ModelBuilder and Renderer.
 */
module HeaderModel {
  import opened Wrappers
  import opened PyStrings
  import opened ObjcTypes
  import opened KnownTypeRegistry
  import opened Tokenizer
  import opened LineSlicing
  import opened ModelBuilder
  import opened Renderer

  /** The output file `output_fp`: the text written to it so far. */
  class OutputFile {
    var written: string

    constructor ()
      ensures written == ""
    {
      written := "";
    }

    /** `output_fp.write(s)`. */
    method Write(s: string)
      modifies this
      ensures written == old(written) + s
    {
      written := written + s;
    }
  }

  /**
   * How save_hooks ends: having written its hooks, having reported an exception raised
   * inside its `try` (the text written before it stays), or raising the class name's error.
   */
  datatype Outcome = Written | Caught(error: Failure) | Raised(error: Failure)

  /** The three scans save_hooks and __regex__ read, in their order: properties, class methods, instance methods. */
  function ScanAll(v: Variant, source: string, drop: bool, known: string -> bool)
    : Result<(seq<ObjcMethod>, seq<ObjcMethod>, seq<ObjcMethod>)>
  {
    var lines := Lines(source);
    var props :- Entries(v, Properties, lines, drop, known);
    var classMethods :- Entries(v, ClassMethods, lines, drop, known);
    var instanceMethods :- Entries(v, InstanceMethods, lines, drop, known);
    Ok((props, classMethods, instanceMethods))
  }

  /** The lists save_hooks passes on: the scanned ones, or with a pattern the matching ones. */
  function Chosen(ms: seq<ObjcMethod>, regex: Option<string -> bool>): seq<ObjcMethod>
  {
    match regex
    case None => ms
    case Some(matches) => Filtered(ms, matches)
  }

  /** Whether save_hooks calls __save__ once the scans succeed: always, or with a pattern when something matches. */
  predicate Saves(lists: (seq<ObjcMethod>, seq<ObjcMethod>, seq<ObjcMethod>), regex: Option<string -> bool>)
  {
    regex.None? || AnyMatches(lists.0, lists.1, lists.2, regex.value)
  }

  /** The text written inside save_hooks' `try` once the class name is known. */
  function ScannedText(v: Variant, name: string, scanned: Result<(seq<ObjcMethod>, seq<ObjcMethod>, seq<ObjcMethod>)>,
                       regex: Option<string -> bool>, f: Flags): string
  {
    match scanned
    case Err(_) => ""
    case Ok(lists) =>
      if Saves(lists, regex)
      then SaveText(v, name, Chosen(lists.0, regex), Chosen(lists.1, regex), Chosen(lists.2, regex), f)
      else ""
  }

  /** The hooks counted inside save_hooks' `try`. */
  function ScannedCount(v: Variant, scanned: Result<(seq<ObjcMethod>, seq<ObjcMethod>, seq<ObjcMethod>)>,
                        regex: Option<string -> bool>, f: Flags): nat
  {
    match scanned
    case Err(_) => 0
    case Ok(lists) =>
      if Saves(lists, regex)
      then SaveHookCount(v, Chosen(lists.0, regex), Chosen(lists.1, regex), Chosen(lists.2, regex), f)
      else 0
  }

  /** How save_hooks' `try` ends: a scan's error, or the accessors of an unnamed property, is caught. */
  function ScannedOutcome(v: Variant, scanned: Result<(seq<ObjcMethod>, seq<ObjcMethod>, seq<ObjcMethod>)>,
                          regex: Option<string -> bool>, f: Flags): Outcome
  {
    match scanned
    case Err(e) => Caught(e)
    case Ok(lists) =>
      if Saves(lists, regex) && PropertiesFail(v, Chosen(lists.0, regex), f) then Caught(IndexOutOfRange)
      else Written
  }

  /** Inside the `try` without a pattern, save_hooks writes, counts and fails as __save__ does. */
  lemma ScannedSave(v: Variant, name: string, lists: (seq<ObjcMethod>, seq<ObjcMethod>, seq<ObjcMethod>), f: Flags)
    ensures ScannedText(v, name, Ok(lists), None, f) == SaveText(v, name, lists.0, lists.1, lists.2, f)
    ensures ScannedCount(v, Ok(lists), None, f) == SaveHookCount(v, lists.0, lists.1, lists.2, f)
    ensures ScannedOutcome(v, Ok(lists), None, f)
            == if PropertiesFail(v, lists.0, f) then Caught(IndexOutOfRange) else Written
  {
  }

  /** Inside the `try` with a pattern, save_hooks writes, counts and fails as __regex__ does. */
  lemma ScannedRegex(v: Variant, name: string, lists: (seq<ObjcMethod>, seq<ObjcMethod>, seq<ObjcMethod>),
                     matches: string -> bool, f: Flags)
    ensures ScannedText(v, name, Ok(lists), Some(matches), f)
            == RegexText(v, name, lists.0, lists.1, lists.2, matches, f)
    ensures ScannedCount(v, Ok(lists), Some(matches), f) == RegexHookCount(v, lists.0, lists.1, lists.2, matches, f)
    ensures ScannedOutcome(v, Ok(lists), Some(matches), f)
            == if AnyMatches(lists.0, lists.1, lists.2, matches) && PropertiesFail(v, Filtered(lists.0, matches), f)
               then Caught(IndexOutOfRange) else Written
  {
  }

  /** The text save_hooks writes: nothing without a class name, otherwise what its `try` writes. */
  function HooksText(v: Variant, source: string, drop: bool, known: string -> bool, f: Flags,
                     regex: Option<string -> bool>): string
  {
    match ClassNameOf(Lines(source))
    case Err(_) => ""
    case Ok(name) => ScannedText(v, name, ScanAll(v, source, drop, known), regex, f)
  }

  /** The hooks save_hooks adds to `_hook_count`. */
  function HooksCount(v: Variant, source: string, drop: bool, known: string -> bool, f: Flags,
                      regex: Option<string -> bool>): nat
  {
    match ClassNameOf(Lines(source))
    case Err(_) => 0
    case Ok(_) => ScannedCount(v, ScanAll(v, source, drop, known), regex, f)
  }

  /** How save_hooks ends: the class name's error escapes it, what the `try` catches is reported. */
  function HooksOutcome(v: Variant, source: string, drop: bool, known: string -> bool, f: Flags,
                        regex: Option<string -> bool>): Outcome
  {
    match ClassNameOf(Lines(source))
    case Err(e) => Raised(e)
    case Ok(_) => ScannedOutcome(v, ScanAll(v, source, drop, known), regex, f)
  }

  /**
   * save_hooks without a pattern on a header that declares its class and scans cleanly: it
   * writes the header first, reports success unless ios-hooker.py writes accessors for a
   * property with an empty name, and on success counts one hook per class and instance
   * method and, per property, one per enabled accessor (ios-hooker.py) or one (hooker.py).
   */
  lemma HooksOfScannedHeader(v: Variant, source: string, drop: bool, known: string -> bool, f: Flags,
                             name: string, lists: (seq<ObjcMethod>, seq<ObjcMethod>, seq<ObjcMethod>))
    requires ClassNameOf(Lines(source)) == Ok(name)
    requires ScanAll(v, source, drop, known) == Ok(lists)
    ensures StartsWith(HooksText(v, source, drop, known, f, None), HeaderText(name))
    ensures HooksOutcome(v, source, drop, known, f, None) == Written
            <==> !(v == IosHooker && (f.getters || f.setters) && SomeUnnamed(lists.0))
    ensures HooksOutcome(v, source, drop, known, f, None) == Written ==>
      HooksCount(v, source, drop, known, f, None) == PropertyHooks(v, |lists.0|, f) + |lists.1| + |lists.2|
  {
    ScannedSave(v, name, lists, f);
    SaveCount(v, lists.0, lists.1, lists.2, f);
    SaveStartsWithHeader(v, name, lists.0, lists.1, lists.2, f);
  }

  /**
   * save_hooks with a pattern on a header that declares its class and scans cleanly writes
   * nothing exactly when no property, class method or instance method name matches, and then
   * counts nothing and reports success.
   */
  lemma HooksWithPattern(v: Variant, source: string, drop: bool, known: string -> bool, f: Flags,
                         matches: string -> bool, lists: (seq<ObjcMethod>, seq<ObjcMethod>, seq<ObjcMethod>))
    requires ClassNameOf(Lines(source)).Ok?
    requires ScanAll(v, source, drop, known) == Ok(lists)
    ensures var none := forall m :: (m in lists.0 || m in lists.1 || m in lists.2) ==> !matches(m.methodName);
      (HooksText(v, source, drop, known, f, Some(matches)) == "" <==> none)
      && (none ==> HooksCount(v, source, drop, known, f, Some(matches)) == 0
                   && HooksOutcome(v, source, drop, known, f, Some(matches)) == Written)
  {
    var name := ClassNameOf(Lines(source)).value;
    ScannedRegex(v, name, lists, matches, f);
    RegexWritesNothingIff(v, name, lists.0, lists.1, lists.2, matches, f);
  }

  class ObjcHeader {
    /** Which script: ios-hooker.py or hooker.py. */
    const variant: Variant
    /** The header file's text. */
    const sourceCode: string
    /** The type names is_known accepts: the registry of this script. */
    const known: string -> bool
    /** `drop_unknowns`: skip entries whose type is not known. */
    var dropUnknowns: bool
    /** ios-hooker.py's switches; hooker.py has none and writes as if all were off. */
    var getters: bool
    var setters: bool
    var params: bool
    var debug: bool
    /** `_class_name`: None until class_name first succeeds. */
    var cachedClassName: Option<string>
    /** `_hook_count`: the hooks written so far. */
    var hookCount: nat

    /** The cached class name, when there is one, is the header's class name. */
    predicate Valid()
      reads this
    {
      cachedClassName.Some? ==> ClassNameOf(Lines(sourceCode)) == Ok(cachedClassName.value)
    }

    /** The switches as the writers read them. */
    function Settings(): Flags
      reads this`getters, this`setters, this`params, this`debug
    {
      Flags(getters, setters, params, debug)
    }

    /** `ObjcHeader(file_path, unknowns)` on a file whose text is `source`. */
    constructor (v: Variant, source: string, unknowns: bool)
      ensures variant == v && sourceCode == source && dropUnknowns == unknowns
      ensures known == KnownTypes(v)
      ensures !getters && !setters && !params && !debug
      ensures cachedClassName == None && hookCount == 0
      ensures Valid()
    {
      variant := v;
      sourceCode := source;
      known := KnownTypes(v);
      dropUnknowns := unknowns;
      getters, setters, params, debug := false, false, false, false;
      cachedClassName := None;
      hookCount := 0;
    }

    /**
     * class_name: the cached name, or the first `@interface` line's second word, which is
     * then cached; no such line is the ValueError, a one-word line the IndexError.
     */
    method ClassName() returns (r: Result<string>)
      requires Valid()
      modifies this`cachedClassName
      ensures Valid()
      ensures r == ClassNameOf(Lines(sourceCode))
      ensures cachedClassName == if r.Ok? then Some(r.value) else old(cachedClassName)
    {
      if cachedClassName.Some? {
        return Ok(cachedClassName.value);
      }
      var lines := Lines(sourceCode);
      var i := 0;
      while i < |lines|
        invariant 0 <= i <= |lines|
        invariant ClassNameOf(lines) == ClassNameOf(lines[i..])
      {
        assert lines[i..][1..] == lines[i + 1..];
        if IsInterfaceLine(lines[i]) {
          var words := Split(lines[i], ' ');
          if |words| < 2 {
            return Err(IndexOutOfRange);
          }
          cachedClassName := Some(words[1]);
          return Ok(words[1]);
        }
        i := i + 1;
      }
      return Err(NoClassName);
    }

    /** One line of a scan that carries the scan's prefix, read into an entry or skipped. */
    method ReadEntry(kind: EntryKind, line: string) returns (e: Result<Option<ObjcMethod>>)
      ensures e == Entry(variant, kind, line, dropUnknowns, known)
    {
      if kind == Properties {
        var name := PropertyName(line);
        var t := PropertyTypeOf(variant, line);
        if t.Err? {
          return Err(t.error);
        }
        if dropUnknowns && !IsKnown(t.value, known) {
          return Ok(None);
        }
        return Ok(Some(ObjcMethod(name, [], Some(t.value), false)));
      }
      var isStatic := kind == ClassMethods;
      var name := MethodName(variant, line);
      if name.Err? {
        return Err(name.error);
      }
      if !isStatic && Skipped(variant, name.value) {
        return Ok(None);
      }
      var ret := ReturnTypeOf(variant, line).value;
      if dropUnknowns && !IsKnown(ret, known) {
        return Ok(None);
      }
      var args := ParseArguments(ArgumentsText(line));
      if args.Err? {
        return Err(args.error);
      }
      return Ok(Some(ObjcMethod(name.value, args.value, Some(ret), isStatic)));
    }

    /**
     * One line of a scan that has read `found` before it: a line without the prefix is passed
     * over, a line that raises ends the scan, any other adds its entry.
     */
    method ScanLine(kind: EntryKind, lines: seq<string>, i: nat, found: seq<ObjcMethod>)
      returns (next: Result<seq<ObjcMethod>>)
      requires i < |lines|
      ensures Prepend(found, Entries(variant, kind, lines[i..], dropUnknowns, known))
              == match next
                 case Err(e) => Err(e)
                 case Ok(more) => Prepend(more, Entries(variant, kind, lines[i + 1..], dropUnknowns, known))
    {
      EntriesStep(variant, kind, lines, i, dropUnknowns, known, found);
      next := Ok(found);
      if StartsWith(lines[i], Prefix(kind)) {
        var e := ReadEntry(kind, lines[i]);
        if e.Err? {
          return Err(e.error);
        }
        next := Ok(found + Listed(e.value));
      }
    }

    /**
     * class_methods, instance_methods and properties: the lines with the scan's prefix read
     * in order into a list; the first line that raises stops the scan.
     */
    method Scan(kind: EntryKind) returns (r: Result<seq<ObjcMethod>>)
      ensures r == Entries(variant, kind, Lines(sourceCode), dropUnknowns, known)
    {
      var lines := Lines(sourceCode);
      var found: seq<ObjcMethod> := [];
      var i := 0;
      PrependTwice([], [], Entries(variant, kind, lines, dropUnknowns, known));
      while i < |lines|
        invariant 0 <= i <= |lines|
        invariant Entries(variant, kind, lines, dropUnknowns, known)
          == Prepend(found, Entries(variant, kind, lines[i..], dropUnknowns, known))
      {
        var next := ScanLine(kind, lines, i, found);
        if next.Err? {
          return Err(next.error);
        }
        found := next.value;
        i := i + 1;
      }
      assert lines[i..] == [];
      assert found + [] == found;
      return Ok(found);
    }

    /** filter_methods: the methods whose name `matches` accepts, in order. */
    method FilterMethods(ms: seq<ObjcMethod>, matches: string -> bool) returns (r: seq<ObjcMethod>)
      ensures r == Filtered(ms, matches)
    {
      r := [];
      var i := 0;
      while i < |ms|
        invariant 0 <= i <= |ms|
        invariant r == Filtered(ms[..i], matches)
      {
        assert ms[..i + 1][..i] == ms[..i];
        if matches(ms[i].methodName) {
          r := r + [ms[i]];
        }
        i := i + 1;
      }
      assert ms[..i] == ms;
    }

    /** write_header: the class name framed in a comment. */
    method WriteHeader(out: OutputFile)
      requires cachedClassName.Some?
      modifies out
      ensures out.written == old(out.written) + HeaderText(cachedClassName.value)
    {
      var name := cachedClassName.value;
      var border := Repeat('=', |name|);
      out.Write("/*==" + border + "\n");
      out.Write("  " + name + "  \n");
      out.Write(border + "==*/\n\n");
    }

    /** write_params: one `NSLog` line per argument. */
    method WriteParams(out: OutputFile, args: seq<ObjcArgument>)
      modifies out
      ensures out.written == old(out.written) + ParamsText(args)
    {
      var i := 0;
      while i < |args|
        invariant 0 <= i <= |args|
        invariant out.written == old(out.written) + ParamsText(args[..i])
      {
        ParamsTextSnoc(args, i);
        AppendTwo(old(out.written), ParamsText(args[..i]), ParamLine(args[i]));
        out.Write(ParamLine(args[i]));
        i := i + 1;
      }
      assert args[..i] == args;
    }

    /** One method hook of write_methods, counted in `_hook_count`. */
    method WriteMethodBlock(out: OutputFile, m: ObjcMethod)
      modifies out, this`hookCount
      ensures out.written == old(out.written) + MethodBlock(variant, m, params)
      ensures hookCount == old(hookCount) + 1
    {
      hookCount := hookCount + 1;
      var head := MethodText(m) + " {\n    %log;\n";
      var mid := if variant == IosHooker && params then ParamsText(m.arguments) else "";
      AppendFour(out.written, head, mid, OrigLine(m), BlockClose(variant));
      out.Write(head);
      if variant == IosHooker && params {
        WriteParams(out, m.arguments);
      }
      assert out.written == old(out.written) + head + mid;
      out.Write(OrigLine(m));
      out.Write(BlockClose(variant));
    }

    /** The getter half of write_etters: a getter hook, counted, when `getters` is set. */
    method WriteGetter(out: OutputFile, m: ObjcMethod, stem: string)
      modifies out, this`hookCount
      ensures out.written == old(out.written) + GetterPart(m, stem, Settings())
      ensures hookCount == old(hookCount) + (if getters then 1 else 0)
    {
      if getters {
        hookCount := hookCount + 1;
        out.Write(GetterText(m, stem, debug));
      } else {
        assert out.written == out.written + "";
      }
    }

    /** The setter half of write_etters: a setter hook, counted, when `setters` is set. */
    method WriteSetter(out: OutputFile, m: ObjcMethod, stem: string)
      modifies out, this`hookCount
      ensures out.written == old(out.written) + SetterPart(m, stem, Settings())
      ensures hookCount == old(hookCount) + (if setters then 1 else 0)
    {
      if setters {
        hookCount := hookCount + 1;
        out.Write(SetterText(m, stem, debug));
      } else {
        assert out.written == out.written + "";
      }
    }

    /**
     * write_etters: the getter hook, the setter hook, then a blank line; an empty property
     * name raises the IndexError before any of it.
     */
    method WriteEtters(out: OutputFile, m: ObjcMethod) returns (err: Option<Failure>)
      modifies out, this`hookCount
      ensures out.written == old(out.written) + EttersText(m, Settings())
      ensures hookCount == old(hookCount) + (if m.methodName == "" then 0 else HooksPer(true, Settings()))
      ensures err.Some? <==> m.methodName == ""
      ensures err.Some? ==> err.value == IndexOutOfRange
    {
      var stem := AccessorStem(m.methodName);
      if stem.Err? {
        return Some(stem.error);
      }
      var f := Settings();
      AppendThree(out.written, GetterPart(m, stem.value, f), SetterPart(m, stem.value, f), "\n");
      WriteGetter(out, m, stem.value);
      WriteSetter(out, m, stem.value);
      out.Write("\n");
      return None;
    }

    /** One entry of write_methods: the accessors of a property when `etters`, a method hook otherwise. */
    method WriteEntry(out: OutputFile, m: ObjcMethod, etters: bool) returns (err: Option<Failure>)
      modifies out, this`hookCount
      ensures out.written == old(out.written) + (if EntryFails(m, etters) then "" else EntryText(variant, m, etters, Settings()))
      ensures hookCount == old(hookCount) + (if EntryFails(m, etters) then 0 else HooksPer(etters, Settings()))
      ensures err.Some? <==> EntryFails(m, etters)
      ensures err.Some? ==> err.value == IndexOutOfRange
    {
      if etters {
        err := WriteEtters(out, m);
        if err.Some? {
          assert out.written == old(out.written) + "";
        }
      } else {
        WriteMethodBlock(out, m);
        err := None;
      }
    }

    /** One turn of write_methods' loop: the entry at `i`, after entries that all succeeded. */
    method WriteNext(out: OutputFile, ms: seq<ObjcMethod>, i: nat, etters: bool, ghost start: string, ghost hooks: nat)
      returns (err: Option<Failure>)
      requires i < |ms| && !ListFails(ms[..i], etters)
      requires out.written == start + ListText(variant, ms[..i], etters, Settings())
      requires hookCount == hooks + ListHooks(ms[..i], etters, Settings())
      modifies out, this`hookCount
      ensures out.written == start + ListText(variant, ms[..i + 1], etters, Settings())
      ensures hookCount == hooks + ListHooks(ms[..i + 1], etters, Settings())
      ensures err.Some? <==> ListFails(ms[..i + 1], etters)
      ensures err.Some? ==> err.value == IndexOutOfRange
    {
      var f := Settings();
      ListSnoc(variant, ms, i, etters, f);
      AppendTwo(start, ListText(variant, ms[..i], etters, f), EntryText(variant, ms[i], etters, f));
      err := WriteEntry(out, ms[i], etters);
    }

    /** The loop of write_methods over the entries; the first entry that raises ends it. */
    method WriteEntries(out: OutputFile, ms: seq<ObjcMethod>, etters: bool) returns (err: Option<Failure>)
      modifies out, this`hookCount
      ensures out.written == old(out.written) + ListText(variant, ms, etters, Settings())
      ensures hookCount == old(hookCount) + ListHooks(ms, etters, Settings())
      ensures err.Some? <==> ListFails(ms, etters)
      ensures err.Some? ==> err.value == IndexOutOfRange
    {
      err := None;
      var i := 0;
      while i < |ms|
        invariant 0 <= i <= |ms|
        invariant !ListFails(ms[..i], etters)
        invariant out.written == old(out.written) + ListText(variant, ms[..i], etters, Settings())
        invariant hookCount == old(hookCount) + ListHooks(ms[..i], etters, Settings())
        invariant err == None
      {
        err := WriteNext(out, ms, i, etters, old(out.written), old(hookCount));
        if err.Some? {
          ListStops(variant, ms, i + 1, etters, Settings());
          return;
        }
        i := i + 1;
      }
      assert ms[..i] == ms;
    }

    /**
     * write_methods: for a non-empty list, the comment, each entry in order and a blank
     * line; an entry that raises ends it.
     */
    method WriteMethods(out: OutputFile, ms: seq<ObjcMethod>, etters: bool, comment: string)
      returns (err: Option<Failure>)
      modifies out, this`hookCount
      ensures out.written == old(out.written) + SectionText(variant, ms, etters, comment, Settings())
      ensures hookCount == old(hookCount) + ListHooks(ms, etters, Settings())
      ensures err.Some? <==> ListFails(ms, etters)
      ensures err.Some? ==> err.value == IndexOutOfRange
    {
      if |ms| == 0 {
        return None;
      }
      var opening := "/* " + comment + " */\n";
      var entries := ListText(variant, ms, etters, Settings());
      AppendThree(out.written, opening, entries, if ListFails(ms, etters) then "" else "\n");
      out.Write(opening);
      err := WriteEntries(out, ms, etters);
      if err.None? {
        out.Write("\n");
      } else {
        assert out.written == out.written + "";
      }
    }

    /**
     * The properties' part of __save__: accessors in ios-hooker.py when `getters` or
     * `setters` is set (nothing otherwise), method hooks in hooker.py.
     */
    method WriteProperties(out: OutputFile, props: seq<ObjcMethod>) returns (err: Option<Failure>)
      modifies out, this`hookCount
      ensures out.written == old(out.written) + PropertiesText(variant, props, Settings())
      ensures hookCount == old(hookCount) + PropertiesHookCount(variant, props, Settings())
      ensures err.Some? <==> PropertiesFail(variant, props, Settings())
      ensures err.Some? ==> err.value == IndexOutOfRange
    {
      err := None;
      if variant == IosHooker {
        if getters || setters {
          err := WriteMethods(out, props, true, "Properties");
        } else {
          assert out.written == out.written + "";
        }
      } else {
        var _ := WriteMethods(out, props, false, "Properties");
      }
    }

    /**
     * __save__: the header, `%hook`, the properties, the class and instance methods, and
     * `%end`; an exception in the properties ends it.
     */
    method Save(out: OutputFile, props: seq<ObjcMethod>, classMethods: seq<ObjcMethod>,
                instanceMethods: seq<ObjcMethod>) returns (err: Option<Failure>)
      requires cachedClassName.Some?
      modifies out, this`hookCount
      ensures out.written == old(out.written)
        + SaveText(variant, cachedClassName.value, props, classMethods, instanceMethods, Settings())
      ensures hookCount == old(hookCount) + SaveHookCount(variant, props, classMethods, instanceMethods, Settings())
      ensures err.Some? <==> PropertiesFail(variant, props, Settings())
      ensures err.Some? ==> err.value == IndexOutOfRange
    {
      var name, f := cachedClassName.value, Settings();
      var start := out.written;
      var opening := HeaderText(name) + HookLine(name) + PropertiesText(variant, props, f);
      WriteHeader(out);
      out.Write(HookLine(name));
      AppendTwo(start, HeaderText(name), HookLine(name));
      err := WriteProperties(out, props);
      AppendTwo(start, HeaderText(name) + HookLine(name), PropertiesText(variant, props, f));
      if err.Some? {
        assert out.written == start + (opening + "");
        return;
      }
      var classes := SectionText(variant, classMethods, false, "Class Methods", f);
      var instances := SectionText(variant, instanceMethods, false, "Instance Methods", f);
      AppendFour(start, opening, classes, instances, "%end\n\n\n");
      var _ := WriteMethods(out, classMethods, false, "Class Methods");
      var _ := WriteMethods(out, instanceMethods, false, "Instance Methods");
      out.Write("%end\n\n\n");
    }

    /** The three scans in the order save_hooks and __regex__ run them, stopping at the first error. */
    method ScanHeader() returns (r: Result<(seq<ObjcMethod>, seq<ObjcMethod>, seq<ObjcMethod>)>)
      ensures r == ScanAll(variant, sourceCode, dropUnknowns, known)
    {
      var props := Scan(Properties);
      if props.Err? {
        return Err(props.error);
      }
      var classMethods := Scan(ClassMethods);
      if classMethods.Err? {
        return Err(classMethods.error);
      }
      var instanceMethods := Scan(InstanceMethods);
      if instanceMethods.Err? {
        return Err(instanceMethods.error);
      }
      r := Ok((props.value, classMethods.value, instanceMethods.value));
    }

    /** The part of __regex__ after the scans: filter each list and save when any entry is left. */
    method SaveMatching(out: OutputFile, props: seq<ObjcMethod>, classMethods: seq<ObjcMethod>,
                        instanceMethods: seq<ObjcMethod>, matches: string -> bool) returns (err: Option<Failure>)
      requires cachedClassName.Some?
      modifies out, this`hookCount
      ensures out.written == old(out.written)
              + RegexText(variant, cachedClassName.value, props, classMethods, instanceMethods, matches, Settings())
      ensures hookCount == old(hookCount) + RegexHookCount(variant, props, classMethods, instanceMethods, matches, Settings())
      ensures err.Some? <==> AnyMatches(props, classMethods, instanceMethods, matches)
                             && PropertiesFail(variant, Filtered(props, matches), Settings())
      ensures err.Some? ==> err.value == IndexOutOfRange
    {
      var p := FilterMethods(props, matches);
      var c := FilterMethods(classMethods, matches);
      var i := FilterMethods(instanceMethods, matches);
      if 0 < |p| + |c| + |i| {
        err := Save(out, p, c, i);
      } else {
        err := None;
        assert out.written == out.written + "";
      }
    }

    /**
     * __regex__: the three scans, each filtered by the pattern, and __save__ on the
     * filtered lists when any of them is non-empty; a scan's error ends it first.
     */
    method Regex(out: OutputFile, matches: string -> bool) returns (err: Option<Failure>)
      requires cachedClassName.Some?
      modifies out, this`hookCount
      ensures var s, f := ScanAll(variant, sourceCode, dropUnknowns, known), Settings();
        out.written == old(out.written) + ScannedText(variant, cachedClassName.value, s, Some(matches), f)
        && hookCount == old(hookCount) + ScannedCount(variant, s, Some(matches), f)
        && ScannedOutcome(variant, s, Some(matches), f) == if err.Some? then Caught(err.value) else Written
    {
      var lists := ScanHeader();
      if lists.Err? {
        return Some(lists.error);
      }
      var (p, c, i) := lists.value;
      ScannedRegex(variant, cachedClassName.value, lists.value, matches, Settings());
      err := SaveMatching(out, p, c, i, matches);
    }

    /** save_hooks without a pattern: the three scans, then __save__ on them. */
    method SaveScanned(out: OutputFile) returns (err: Option<Failure>)
      requires cachedClassName.Some?
      modifies out, this`hookCount
      ensures var s, f := ScanAll(variant, sourceCode, dropUnknowns, known), Settings();
        out.written == old(out.written) + ScannedText(variant, cachedClassName.value, s, None, f)
        && hookCount == old(hookCount) + ScannedCount(variant, s, None, f)
        && ScannedOutcome(variant, s, None, f) == if err.Some? then Caught(err.value) else Written
    {
      var lists := ScanHeader();
      if lists.Err? {
        return Some(lists.error);
      }
      var (p, c, i) := lists.value;
      ScannedSave(variant, cachedClassName.value, lists.value, Settings());
      err := Save(out, p, c, i);
    }

    /**
     * save_hooks: the class name (its error escapes), then inside the `try` __regex__ when a
     * pattern is given and __save__ on the three scans otherwise; what the `try` catches is
     * reported as the outcome, and the text written before it stays.
     */
    method SaveHooks(out: OutputFile, regex: Option<string -> bool>) returns (outcome: Outcome)
      requires Valid()
      modifies out, this`hookCount, this`cachedClassName
      ensures Valid()
      ensures cachedClassName == if ClassNameOf(Lines(sourceCode)).Ok? then Some(ClassNameOf(Lines(sourceCode)).value)
                                 else old(cachedClassName)
      ensures out.written == old(out.written) + HooksText(variant, sourceCode, dropUnknowns, known, Settings(), regex)
      ensures hookCount == old(hookCount) + HooksCount(variant, sourceCode, dropUnknowns, known, Settings(), regex)
      ensures outcome == HooksOutcome(variant, sourceCode, dropUnknowns, known, Settings(), regex)
    {
      var name := ClassName();
      if name.Err? {
        assert out.written == out.written + "";
        return Raised(name.error);
      }
      var err: Option<Failure>;
      if regex.Some? {
        err := Regex(out, regex.value);
      } else {
        err := SaveScanned(out);
      }
      outcome := if err.Some? then Caught(err.value) else Written;
    }
  }
}
