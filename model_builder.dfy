/**
 * ObjcHeader's parsing properties: `class_name` and the three scans `class_methods`,
 * `instance_methods` and `properties`, which walk the `'\n'`-separated lines in order, take
 * the lines with their leading `+`, `-` or `@property`, and drop entries of unknown type
 * when `drop_unknowns` is set. Here they are specification functions; ObjcHeader's loops
 * are proved equal to them.
 */
module ModelBuilder {
  import opened Wrappers
  import opened PyStrings
  import opened ObjcTypes
  import opened Tokenizer
  import opened LineSlicing

  /** `source_code.split('\n')`. */
  function Lines(source: string): seq<string>
  {
    Split(source, '\n')
  }

  /** The line that declares the class. */
  predicate IsInterfaceLine(line: string)
  {
    StartsWith(line, "@interface")
  }

  /**
   * class_name: the second space-separated word of the first `@interface` line. A first
   * `@interface` line of one word is an IndexError; no such line at all is the ValueError
   * the property raises.
   */
  function ClassNameOf(lines: seq<string>): (r: Result<string>)
    ensures r == Err(NoClassName) <==> forall i :: 0 <= i < |lines| ==> !IsInterfaceLine(lines[i])
    ensures r.Err? ==> r.error == NoClassName || r.error == IndexOutOfRange
    ensures r.Ok? ==> ' ' !in r.value
  {
    if lines == [] then Err(NoClassName)
    else if IsInterfaceLine(lines[0]) then
      var words := Split(lines[0], ' ');
      if |words| < 2 then Err(IndexOutOfRange)
      else
        assert words[1] in words;
        Ok(words[1])
    else
      var r := ClassNameOf(lines[1..]);
      assert forall i :: 0 <= i < |lines| - 1 ==> lines[1..][i] == lines[i + 1];
      assert !IsInterfaceLine(lines[0]);
      r
  }

  /** Lines before the first `@interface` line do not affect the class name. */
  lemma {:induction false} ClassNameSkipsPrefix(pre: seq<string>, rest: seq<string>)
    requires forall i :: 0 <= i < |pre| ==> !IsInterfaceLine(pre[i])
    ensures ClassNameOf(pre + rest) == ClassNameOf(rest)
  {
    if pre != [] {
      assert (pre + rest)[1..] == pre[1..] + rest;
      ClassNameSkipsPrefix(pre[1..], rest);
    } else {
      assert pre + rest == rest;
    }
  }

  /**
   * The class name of `@interface Name : Super` (or of `@interface Name` alone) read back:
   * the first interface line decides, and its second word is the name.
   */
  lemma InterfaceClassName(pre: seq<string>, name: string, tail: string, post: seq<string>)
    requires forall i :: 0 <= i < |pre| ==> !IsInterfaceLine(pre[i])
    requires ' ' !in name && (tail == "" || tail[0] == ' ')
    ensures ClassNameOf(pre + ["@interface " + name + tail] + post) == Ok(name)
  {
    var line := "@interface " + name + tail;
    assert pre + [line] + post == pre + ([line] + post);
    ClassNameSkipsPrefix(pre, [line] + post);
    assert IsInterfaceLine(line) by {
      assert line[..10] == "@interface";
    }
    InterfaceLineWords(name, tail);
    assert ([line] + post)[0] == line;
  }

  /** The second word of `@interface Name...` is `Name`. */
  lemma InterfaceLineWords(name: string, tail: string)
    requires ' ' !in name && (tail == "" || tail[0] == ' ')
    ensures var words := Split("@interface " + name + tail, ' ');
      |words| >= 2 && words[1] == name
  {
    assert ' ' !in "@interface";
    assert "@interface " + name + tail == "@interface" + [' '] + (name + tail);
    SecondWord("@interface", name, tail);
  }

  /** In `first name tail`, with no space in the first two words, the second word is `name`. */
  lemma SecondWord(first: string, name: string, tail: string)
    requires ' ' !in first && ' ' !in name && (tail == "" || tail[0] == ' ')
    ensures var words := Split(first + [' '] + (name + tail), ' ');
      |words| >= 2 && words[1] == name
  {
    SplitConcat(first, name + tail, ' ');
    SplitWithout(first, ' ');
    SplitPrefix(name, tail, ' ');
    if tail == "" {
      assert Split(tail, ' ')[0] == "";
    } else {
      assert Split(tail, ' ') == [""] + Split(tail[1..], ' ');
    }
    assert name + "" == name;
  }

  /** The three scans: class methods (`+`), instance methods (`-`) and properties (`@property`). */
  datatype EntryKind = ClassMethods | InstanceMethods | Properties

  /** The prefix that selects a line for a scan. */
  function Prefix(kind: EntryKind): string
  {
    match kind
    case ClassMethods => "+"
    case InstanceMethods => "-"
    case Properties => "@property"
  }

  /** Instance methods the scan skips by name: ios-hooker.py also skips `cxx_construct`. */
  predicate Skipped(v: Variant, name: string)
  {
    name == ".cxx_destruct" || (v == IosHooker && name == "cxx_construct")
  }

  /**
   * One method line of `class_methods` (`isStatic`) or `instance_methods`: the name is read
   * first, a skipped instance method stops there, then the return type decides whether
   * the entry is dropped, and only a kept entry has its argument text parsed.
   */
  function MethodEntry(v: Variant, line: string, isStatic: bool, drop: bool, known: string -> bool)
    : (r: Result<Option<ObjcMethod>>)
    ensures r.Err? && ')' !in line ==> r.error == SubstringNotFound
    ensures r.Ok? && r.value.Some? ==>
      r.value.value.isStatic == isStatic && r.value.value.retType.Some?
      && (drop ==> IsKnown(r.value.value.retType.value, known))
      && (!isStatic ==> !Skipped(v, r.value.value.methodName))
  {
    var name :- MethodName(v, line);
    if !isStatic && Skipped(v, name) then Ok(None)
    else
      // get_return_type needs the same `)` that get_method_name found
      var ret := ReturnTypeOf(v, line).value;
      if drop && !IsKnown(ret, known) then Ok(None)
      else
        var args :- ArgumentsOf(ArgumentsText(line));
        Ok(Some(ObjcMethod(name, args, Some(ret), isStatic)))
  }

  /**
   * One `@property` line: the name, then the type (which may raise), and an entry with no
   * arguments whose return type is the property type, unless it is dropped.
   */
  function PropertyEntry(v: Variant, line: string, drop: bool, known: string -> bool)
    : (r: Result<Option<ObjcMethod>>)
    ensures r.Ok? && r.value.Some? ==>
      r.value.value.methodName == PropertyName(line) && r.value.value.arguments == []
      && !r.value.value.isStatic && r.value.value.retType.Some?
      && (drop ==> IsKnown(r.value.value.retType.value, known))
  {
    var name := PropertyName(line);
    var t :- PropertyTypeOf(v, line);
    if drop && !IsKnown(t, known) then Ok(None)
    else Ok(Some(ObjcMethod(name, [], Some(t), false)))
  }

  /** What every entry of a scan satisfies. */
  predicate WellFormedEntry(v: Variant, kind: EntryKind, m: ObjcMethod, drop: bool, known: string -> bool)
  {
    && m.retType.Some?
    && (m.isStatic <==> kind == ClassMethods)
    && (kind == Properties ==> m.arguments == [])
    && (kind == InstanceMethods ==> !Skipped(v, m.methodName))
    && (drop ==> IsKnown(m.retType.value, known))
  }

  /** The entry a selected line contributes to a scan (None: skipped or dropped). */
  function Entry(v: Variant, kind: EntryKind, line: string, drop: bool, known: string -> bool)
    : (r: Result<Option<ObjcMethod>>)
    ensures r.Ok? && r.value.Some? ==> WellFormedEntry(v, kind, r.value.value, drop, known)
  {
    match kind
    case ClassMethods => MethodEntry(v, line, true, drop, known)
    case InstanceMethods => MethodEntry(v, line, false, drop, known)
    case Properties => PropertyEntry(v, line, drop, known)
  }

  /** An optional entry as a list of zero or one. */
  function Listed(e: Option<ObjcMethod>): seq<ObjcMethod>
  {
    match e
    case Some(m) => [m]
    case None => []
  }

  /** An optional entry that is well formed when present lists only well-formed entries. */
  lemma ListedWellFormed(v: Variant, kind: EntryKind, e: Option<ObjcMethod>, drop: bool, known: string -> bool)
    requires e.Some? ==> WellFormedEntry(v, kind, e.value, drop, known)
    ensures forall m :: m in Listed(e) ==> WellFormedEntry(v, kind, m, drop, known)
  {
  }

  /** A scan over the lines, in order; the first line that raises stops it. */
  function Entries(v: Variant, kind: EntryKind, lines: seq<string>, drop: bool, known: string -> bool)
    : (r: Result<seq<ObjcMethod>>)
    ensures r.Ok? ==> |r.value| <= |lines|
  {
    if lines == [] then Ok([])
    else if !StartsWith(lines[0], Prefix(kind)) then Entries(v, kind, lines[1..], drop, known)
    else
      var e :- Entry(v, kind, lines[0], drop, known);
      var rest :- Entries(v, kind, lines[1..], drop, known);
      Ok(Listed(e) + rest)
  }

  /**
   * One step of a scan that has read `found` from the lines before `i`: a line without the
   * prefix is passed over, a line that raises ends the scan, any other adds its entry.
   */
  lemma EntriesStep(v: Variant, kind: EntryKind, lines: seq<string>, i: nat, drop: bool, known: string -> bool,
                    found: seq<ObjcMethod>)
    requires i < |lines|
    ensures var rest := Entries(v, kind, lines[i + 1..], drop, known);
      var e := Entry(v, kind, lines[i], drop, known);
      Prepend(found, Entries(v, kind, lines[i..], drop, known))
      == if !StartsWith(lines[i], Prefix(kind)) then Prepend(found, rest)
         else if e.Err? then Err(e.error)
         else Prepend(found + Listed(e.value), rest)
  {
    assert lines[i..][1..] == lines[i + 1..];
    var rest := Entries(v, kind, lines[i + 1..], drop, known);
    var e := Entry(v, kind, lines[i], drop, known);
    if StartsWith(lines[i], Prefix(kind)) && e.Ok? {
      PrependTwice(found, Listed(e.value), rest);
    }
  }

  /**
   * Every entry of a scan has a return type, is static exactly in `class_methods`, has no
   * arguments when it is a property, is never a skipped destructor or constructor among
   * instance methods, and has a known type whenever unknowns are dropped.
   */
  lemma {:induction false} EntriesWellFormed(v: Variant, kind: EntryKind, lines: seq<string>, drop: bool,
                                             known: string -> bool)
    requires Entries(v, kind, lines, drop, known).Ok?
    ensures forall m :: m in Entries(v, kind, lines, drop, known).value ==> WellFormedEntry(v, kind, m, drop, known)
  {
    if lines != [] {
      EntriesWellFormed(v, kind, lines[1..], drop, known);
      if StartsWith(lines[0], Prefix(kind)) {
        var e := Entry(v, kind, lines[0], drop, known);
        var rest := Entries(v, kind, lines[1..], drop, known);
        assert e.Ok? && rest.Ok?;
        assert Entries(v, kind, lines, drop, known).value == Listed(e.value) + rest.value;
        ListedWellFormed(v, kind, e.value, drop, known);
      }
    }
  }

  /** A scan over two blocks of lines is the first block's entries followed by the second's. */
  lemma {:induction false} EntriesAppend(v: Variant, kind: EntryKind, a: seq<string>, b: seq<string>, drop: bool,
                                         known: string -> bool)
    ensures var ra := Entries(v, kind, a, drop, known);
      Entries(v, kind, a + b, drop, known)
      == if ra.Err? then ra else Prepend(ra.value, Entries(v, kind, b, drop, known))
  {
    var rb := Entries(v, kind, b, drop, known);
    if a == [] {
      assert a + b == b;
      PrependTwice([], [], rb);
    } else {
      assert (a + b)[0] == a[0] && (a + b)[1..] == a[1..] + b;
      EntriesAppend(v, kind, a[1..], b, drop, known);
      var rt := Entries(v, kind, a[1..], drop, known);
      if StartsWith(a[0], Prefix(kind)) {
        var e := Entry(v, kind, a[0], drop, known);
        if e.Ok? && rt.Ok? {
          PrependTwice(Listed(e.value), rt.value, rb);
        }
      }
    }
  }

  /** Lines without the scan's prefix contribute nothing. */
  lemma {:induction false} OtherLinesIgnored(v: Variant, kind: EntryKind, lines: seq<string>, drop: bool,
                                             known: string -> bool)
    requires forall i :: 0 <= i < |lines| ==> !StartsWith(lines[i], Prefix(kind))
    ensures Entries(v, kind, lines, drop, known) == Ok([])
  {
    if lines != [] {
      assert forall i :: 0 <= i < |lines| - 1 ==> lines[1..][i] == lines[i + 1];
      OtherLinesIgnored(v, kind, lines[1..], drop, known);
    }
  }

  /** The lines a scan selects, in order. */
  function Selected(kind: EntryKind, lines: seq<string>): (r: seq<string>)
    ensures forall l :: l in r ==> l in lines && StartsWith(l, Prefix(kind))
  {
    if lines == [] then []
    else (if StartsWith(lines[0], Prefix(kind)) then [lines[0]] else []) + Selected(kind, lines[1..])
  }

  /**
   * Without `drop_unknowns`, `class_methods` and `properties` keep one entry per selected
   * line: nothing is dropped.
   */
  lemma {:induction false} NothingDroppedWhenKept(v: Variant, kind: EntryKind, lines: seq<string>,
                                                  known: string -> bool)
    requires kind != InstanceMethods
    requires Entries(v, kind, lines, false, known).Ok?
    ensures |Entries(v, kind, lines, false, known).value| == |Selected(kind, lines)|
  {
    if lines != [] {
      NothingDroppedWhenKept(v, kind, lines[1..], known);
    }
  }

  /**
   * Reading a method line back: a line `+(T)name:(T1)a b:(T2)c;` (or `-`) becomes the
   * method it declares, its return type text kept whole (a `*` in it makes a pointer and
   * stays in the name), unless the entry is skipped or dropped.
   */
  lemma MethodLineEntry(v: Variant, isStatic: bool, typeText: string, name: string, args: seq<ObjcArgument>,
                        drop: bool, known: string -> bool)
    requires ')' !in typeText && ':' !in typeText && ':' !in name
    requires forall k :: 0 <= k < |args| ==> Declarable(args[k])
    requires args == [] || args[0].externalName == ""
    ensures var line := MethodLine(if isStatic then '+' else '-', typeText, name, ArgumentsDecl(args));
      var ret := ObjcType(typeText, '*' in typeText);
      MethodEntry(v, line, isStatic, drop, known)
      == if (!isStatic && Skipped(v, name)) || (drop && !IsKnown(ret, known)) then Ok(None)
         else Ok(Some(ObjcMethod(name, args, Some(ret), isStatic)))
  {
    var sigil := if isStatic then '+' else '-';
    var decl := ArgumentsDecl(args);
    DeclStartsWithColon(args);
    MethodLineName(v, sigil, typeText, name, decl);
    MethodLineReturnType(v, sigil, typeText, name, decl);
    MethodLineArguments(sigil, typeText, name, decl);
    ArgumentsRoundTrip(args);
  }

  /**
   * ObjcMethod.__str__ of a method read back from its line: `s(T)name:(T1)a b:(T2)c;` renders
   * as `s(T') name` followed by the arguments' own texts, where `T'` is `T` with one more `*`
   * when `T` holds a `*`: get_return_type keeps the `*` in the name and also sets the pointer
   * flag, and __str__ writes a `*` for the flag, so `-(NSString *)foo;` renders as
   * `-(NSString **) foo`.
   */
  lemma MethodTextOfLine(v: Variant, isStatic: bool, typeText: string, name: string, args: seq<ObjcArgument>,
                         known: string -> bool)
    requires ')' !in typeText && ':' !in typeText && ':' !in name
    requires forall k :: 0 <= k < |args| ==> Declarable(args[k])
    requires args == [] || args[0].externalName == ""
    requires isStatic || !Skipped(v, name)
    ensures var sigil := if isStatic then '+' else '-';
      var e := MethodEntry(v, MethodLine(sigil, typeText, name, ArgumentsDecl(args)), isStatic, false, known);
      e.Ok? && e.value.Some?
      && MethodText(e.value.value)
         == [sigil] + "(" + typeText + (if '*' in typeText then "*" else "") + ") " + name
            + Join(" ", ArgumentTexts(args))
  {
    var sigil := if isStatic then '+' else '-';
    var ret := ObjcType(typeText, '*' in typeText);
    MethodLineEntry(v, isStatic, typeText, name, args, false, known);
    ReadBackText(isStatic, ret, name, args);
  }

  /** The text of a method whose return type is `T` read back: `s(T') name` and its arguments. */
  lemma ReadBackText(isStatic: bool, ret: ObjcType, name: string, args: seq<ObjcArgument>)
    requires ret.isPointer <==> '*' in ret.className
    ensures MethodText(ObjcMethod(name, args, Some(ret), isStatic))
      == [if isStatic then '+' else '-'] + "(" + ret.className + (if '*' in ret.className then "*" else "") + ") "
         + name + Join(" ", ArgumentTexts(args))
  {
  }

  /**
   * ObjcArgument.__str__ renders a declared argument as its declaration with a space after the
   * `)` that closes its type: `ext:(T)local` becomes `ext:(T) local`.
   */
  lemma ArgumentTextOfDecl(a: ObjcArgument)
    requires Declarable(a)
    ensures var d := ArgumentDecl(a);
      ')' in d && ArgumentText(a) == d[..Find(d, ')') + 1] + " " + d[Find(d, ')') + 1..]
  {
    TypeTextPlain(a);
    var pre := a.externalName + ":(" + TypeText(a.classType);
    var head := pre + ")";
    var d := ArgumentDecl(a);
    assert ')' !in pre;
    FindConcat(pre, ")", ')');
    assert d == head + a.component;
    FindConcat(head, a.component, ')');
    assert d[..|pre| + 1] == head && d[|pre| + 1..] == a.component;
  }

  /** The texts of declared arguments: each declaration with a space after its type's `)`. */
  lemma ArgumentTextsOfDecls(args: seq<ObjcArgument>)
    requires forall k :: 0 <= k < |args| ==> Declarable(args[k])
    ensures |ArgumentTexts(args)| == |args|
    ensures forall k :: 0 <= k < |args| ==>
      var d := ArgumentDecl(args[k]);
      ')' in d && ArgumentTexts(args)[k] == d[..Find(d, ')') + 1] + " " + d[Find(d, ')') + 1..]
  {
    forall k | 0 <= k < |args|
      ensures var d := ArgumentDecl(args[k]);
        ')' in d && ArgumentTexts(args)[k] == d[..Find(d, ')') + 1] + " " + d[Find(d, ')') + 1..]
    {
      ArgumentTextOfDecl(args[k]);
    }
  }

  /** The argument text of a method line opens with the `:` of its first, unnamed, argument. */
  lemma DeclStartsWithColon(args: seq<ObjcArgument>)
    requires args == [] || args[0].externalName == ""
    ensures ArgumentsDecl(args) == "" || ArgumentsDecl(args)[0] == ':'
  {
    if args != [] {
      var d := Decls(args);
      assert d[0] == ArgumentDecl(args[0]);
      assert d[0][0] == ':';
      if |d| > 1 {
        assert ArgumentsDecl(args) == d[0] + " " + Join(" ", d[1..]);
      }
    }
  }

  /**
   * Reading a property line back in ios-hooker.py: `@property(attrs) T name;` becomes an
   * argument-less entry named `name` whose type is read from `T` as an argument type is.
   */
  lemma IosPropertyLineEntry(attrs: string, typeText: string, name: string, drop: bool, known: string -> bool)
    requires ')' !in attrs && ' ' !in name
    ensures var t := TypeFromText(typeText);
      PropertyEntry(IosHooker, PropertyLine(attrs, typeText, name), drop, known)
      == if drop && !IsKnown(t, known) then Ok(None) else Ok(Some(ObjcMethod(name, [], Some(t), false)))
  {
    PropertyLineName(attrs, typeText, name);
    IosPropertyLineType(attrs, typeText, name);
  }

  /** Reading a property line back in hooker.py: only the first word of `T` is kept, never a pointer. */
  lemma HookerPropertyLineEntry(attrs: string, typeText: string, name: string, drop: bool, known: string -> bool)
    requires ')' !in attrs && ' ' !in name
    ensures var t := ObjcType(Split(typeText, ' ')[0], false);
      PropertyEntry(Hooker, PropertyLine(attrs, typeText, name), drop, known)
      == if drop && !IsKnown(t, known) then Ok(None) else Ok(Some(ObjcMethod(name, [], Some(t), false)))
  {
    PropertyLineName(attrs, typeText, name);
    HookerPropertyLineType(attrs, typeText, name);
  }

  /** A method line is selected by exactly the scan its sign names; a property line by neither. */
  lemma LinesSelectedByPrefix(sigil: char, typeText: string, name: string, decl: string,
                              attrs: string, propertyType: string, propertyName: string)
    requires sigil == '+' || sigil == '-'
    ensures var line := MethodLine(sigil, typeText, name, decl);
      (StartsWith(line, Prefix(ClassMethods)) <==> sigil == '+')
      && (StartsWith(line, Prefix(InstanceMethods)) <==> sigil == '-')
      && !StartsWith(line, Prefix(Properties))
    ensures var line := PropertyLine(attrs, propertyType, propertyName);
      StartsWith(line, Prefix(Properties))
      && !StartsWith(line, Prefix(ClassMethods)) && !StartsWith(line, Prefix(InstanceMethods))
  {
    var line := MethodLine(sigil, typeText, name, decl);
    assert line[0] == sigil;
    var pline := PropertyLine(attrs, propertyType, propertyName);
    assert pline[..9] == "@property";
  }
}
