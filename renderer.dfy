/**
 * What ObjcHeader writes: the comment header, `%hook` blocks for methods, getter and setter
 * hooks for properties (ios-hooker.py), `NSLog` lines for parameters, and the hook count.
 * Each writer is described by three specification functions: the text it appends to the
 * output, the hooks it adds to `_hook_count`, and whether it raises. Only write_etters can
 * raise (the IndexError of `property_name[0]`); the text written before it stays written.
 */
module Renderer {
  import opened Wrappers
  import opened PyStrings
  import opened ObjcTypes

  /** The `getters`, `setters`, `params` and `debug` switches of ios-hooker.py's ObjcHeader. */
  datatype Flags = Flags(getters: bool, setters: bool, params: bool, debug: bool)

  /** write_header: the class name framed by `=` borders. */
  function HeaderText(name: string): string
  {
    "/*==" + Repeat('=', |name|) + "\n" + "  " + name + "  \n" + Repeat('=', |name|) + "==*/\n\n"
  }

  /**
   * The header's three lines are equally wide: each border has `len(class_name) + 2` `=`
   * characters, and the name line pads the name by two spaces on each side.
   */
  lemma HeaderAligned(name: string)
    ensures var border := Repeat('=', |name| + 2);
      var top, middle, bottom := "/*" + border, "  " + name + "  ", border + "*/";
      HeaderText(name) == top + "\n" + middle + "\n" + bottom + "\n\n"
      && |top| == |middle| == |bottom| == |name| + 4
  {
    var n := |name|;
    assert "==" + Repeat('=', n) == Repeat('=', n + 2);
    assert Repeat('=', n) + "==" == Repeat('=', n + 2);
  }

  /** The `%hook` line that opens a class's hooks. */
  function HookLine(name: string): string
  {
    "%hook " + name + "\n\n"
  }

  /** write_params: one `NSLog` line per argument, logged with the NSLOG conversion of its type. */
  function ParamLine(a: ObjcArgument): string
  {
    Join("", ["    NSLog(@\"    [Param]", ArgumentText(a), " -> %", LogFormat(TypeText(a.classType)),
              "\", ", a.component, ");\n"])
  }

  /** The parameter lines of several arguments, in order: one line per argument. */
  function ParamsText(args: seq<ObjcArgument>): string
  {
    if args == [] then "" else ParamsText(args[..|args| - 1]) + ParamLine(args[|args| - 1])
  }

  /** The parameter lines of a longer prefix: one more line at the end. */
  lemma ParamsTextSnoc(args: seq<ObjcArgument>, i: nat)
    requires i < |args|
    ensures ParamsText(args[..i + 1]) == ParamsText(args[..i]) + ParamLine(args[i])
  {
    assert args[..i + 1][..i] == args[..i];
  }

  /** How a block ends: `}` and a blank line in ios-hooker.py, `}` alone in hooker.py. */
  function BlockClose(v: Variant): string
  {
    match v
    case IosHooker => "}\n\n"
    case Hooker => "}\n"
  }

  /** The `%orig` line of a block: a `void` method only calls it, any other returns it. */
  function OrigLine(m: ObjcMethod): string
  {
    if ContainsSub(TypeText(ReturnType(m)), "void") then "    %orig;\n" else "    return %orig;\n"
  }

  /**
   * One method hook of write_methods: the method's text, `%log`, parameter lines when
   * `params` is set (ios-hooker.py only), the `%orig` line and the close.
   */
  function MethodBlock(v: Variant, m: ObjcMethod, params: bool): string
  {
    MethodText(m) + " {\n    %log;\n"
      + ((if v == IosHooker && params then ParamsText(m.arguments) else "") + OrigLine(m) + BlockClose(v))
  }

  /** A method block opens with the method's text and `%log`. */
  lemma MethodBlockOpens(v: Variant, m: ObjcMethod, params: bool)
    ensures StartsWith(MethodBlock(v, m, params), MethodText(m) + " {\n    %log;\n")
  {
    var mid := if v == IosHooker && params then ParamsText(m.arguments) else "";
    StartsWithConcat(MethodText(m) + " {\n    %log;\n", mid + OrigLine(m) + BlockClose(v));
  }

  /**
   * A method block ends by calling `%orig` exactly when `void` occurs in the return type's
   * text, and by returning it otherwise.
   */
  lemma MethodBlockEnds(v: Variant, m: ObjcMethod, params: bool)
    ensures var b := MethodBlock(v, m, params);
      var isVoid := ContainsSub(TypeText(ReturnType(m)), "void");
      (EndsWith(b, "    %orig;\n" + BlockClose(v)) <==> isVoid)
      && (EndsWith(b, "    return %orig;\n" + BlockClose(v)) <==> !isVoid)
  {
    var head := MethodText(m) + " {\n    %log;\n";
    var mid := if v == IosHooker && params then ParamsText(m.arguments) else "";
    assert MethodBlock(v, m, params) == head + mid + (OrigLine(m) + BlockClose(v));
    OrigEnding(head + mid, BlockClose(v), ContainsSub(TypeText(ReturnType(m)), "void"));
  }

  /** A text starts with its own first part. */
  lemma StartsWithConcat(a: string, b: string)
    ensures StartsWith(a + b, a)
  {
    assert (a + b)[..|a|] == a;
  }

  /** Which `%orig` line a block ends with tells which one was written. */
  lemma OrigEnding(x: string, close: string, isVoid: bool)
    ensures var calls, returning := "    %orig;\n" + close, "    return %orig;\n" + close;
      var b := x + (if isVoid then calls else returning);
      (EndsWith(b, calls) <==> isVoid) && (EndsWith(b, returning) <==> !isVoid)
  {
    var calls, returning := "    %orig;\n" + close, "    return %orig;\n" + close;
    assert |returning| == |calls| + 7;
    assert calls[0] == ' ' && returning[7] == 'u';
    var b := x + (if isVoid then calls else returning);
    if isVoid {
      assert b[|b| - |calls|..] == calls;
    } else {
      assert b[|b| - |returning|..] == returning;
    }
  }

  /**
   * The stem shared by an accessor pair: `et` and the property name with its first letter
   * upper-cased; an empty name is the IndexError of `property_name[0]`.
   */
  function AccessorStem(name: string): (r: Result<string>)
    ensures r.Err? <==> name == ""
    ensures r.Err? ==> r.error == IndexOutOfRange
  {
    if name == "" then Err(IndexOutOfRange) else Ok("et" + [Upper(name[0])] + name[1..])
  }

  /**
   * Accessor names are `get` and `set` followed by the property name with its first letter
   * upper-cased: the rest of the name is kept, and only a lower-case first letter changes.
   */
  lemma AccessorNames(name: string)
    requires name != ""
    ensures var stem := AccessorStem(name).value;
      "g" + stem == "get" + [Upper(name[0])] + name[1..]
      && "s" + stem == "set" + [Upper(name[0])] + name[1..]
      && |stem| == |name| + 2 && stem[3..] == name[1..]
      && (stem[2] == name[0] <==> !('a' <= name[0] <= 'z'))
  {
    var stem := AccessorStem(name).value;
    assert stem[3..] == name[1..];
  }

  /** The signature line of a getter hook. */
  function GetterSignature(t: string, stem: string): string
  {
    "-(" + t + ") g" + stem + " {\n"
  }

  /** The getter hook of write_etters. */
  function GetterText(m: ObjcMethod, stem: string, debug: bool): string
  {
    GetterSignature(TypeText(ReturnType(m)), stem) + GetterBody(m, debug)
  }

  /** The lines of a getter hook after its signature. */
  function GetterBody(m: ObjcMethod, debug: bool): string
  {
    var t, name := TypeText(ReturnType(m)), m.methodName;
    Join("", [if debug then Join("", ["    NSLog(@\" >>> Enter ", name, " Getter >>>\");\n"]) else "",
              "    ", t, " ", name, " = %orig;\n",
              "    NSLog(@\"[<- Getter](", t, ") ", name, ": %", LogFormat(t), "\", ", name, ");\n",
              "    return ", name, ";\n",
              "}\n"])
  }

  /** The signature line of a setter hook. */
  function SetterSignature(t: string, stem: string, name: string): string
  {
    "-(void) s" + stem + ": " + "(" + t + ")" + name + " {\n"
  }

  /** The setter hook of write_etters. */
  function SetterText(m: ObjcMethod, stem: string, debug: bool): string
  {
    SetterSignature(TypeText(ReturnType(m)), stem, m.methodName) + SetterBody(m, debug)
  }

  /** The lines of a setter hook after its signature. */
  function SetterBody(m: ObjcMethod, debug: bool): string
  {
    var t, name := TypeText(ReturnType(m)), m.methodName;
    Join("", [if debug then Join("", ["    NSLog(@\" >>> Enter ", name, " Setter >>>\");\n"]) else "",
              "    NSLog(@\"[Setter ->](", t, ") ", name, ": %", LogFormat(t), "\", ", name, ");\n",
              "    %orig(", name, ");\n",
              "}\n"])
  }

  /** The getter hook of write_etters when `getters` is set. */
  function GetterPart(m: ObjcMethod, stem: string, f: Flags): string
  {
    if f.getters then GetterText(m, stem, f.debug) else ""
  }

  /** The setter hook of write_etters when `setters` is set. */
  function SetterPart(m: ObjcMethod, stem: string, f: Flags): string
  {
    if f.setters then SetterText(m, stem, f.debug) else ""
  }

  /**
   * write_etters: the getter hook, the setter hook, then a blank line. An empty property
   * name raises before anything is written.
   */
  function EttersText(m: ObjcMethod, f: Flags): string
  {
    match AccessorStem(m.methodName)
    case Err(_) => ""
    case Ok(stem) => GetterPart(m, stem, f) + SetterPart(m, stem, f) + "\n"
  }

  /** The getter hook opens with the signature Objective-C synthesises: `-(T) getName {`. */
  lemma GetterOpens(m: ObjcMethod, debug: bool)
    requires m.methodName != ""
    ensures var name := m.methodName;
      StartsWith(GetterText(m, AccessorStem(name).value, debug),
                 "-(" + TypeText(ReturnType(m)) + ") get" + [Upper(name[0])] + name[1..] + " {\n")
  {
    var name := m.methodName;
    var t, cap := TypeText(ReturnType(m)), [Upper(name[0])] + name[1..];
    var stem := AccessorStem(name).value;
    assert stem == "et" + cap;
    SignaturesSpelled(t, cap, name);
    StartsWithConcat(GetterSignature(t, stem), GetterBody(m, debug));
    assert "-(" + t + ") get" + [Upper(name[0])] + name[1..] + " {\n" == "-(" + t + ") get" + cap + " {\n";
  }

  /** The setter hook opens with the signature Objective-C synthesises: `-(void) setName: (T)name {`. */
  lemma SetterOpens(m: ObjcMethod, debug: bool)
    requires m.methodName != ""
    ensures var name := m.methodName;
      StartsWith(SetterText(m, AccessorStem(name).value, debug),
                 "-(void) set" + [Upper(name[0])] + name[1..] + ": (" + TypeText(ReturnType(m)) + ")" + name + " {\n")
  {
    var name := m.methodName;
    var t, cap := TypeText(ReturnType(m)), [Upper(name[0])] + name[1..];
    var stem := AccessorStem(name).value;
    assert stem == "et" + cap;
    SignaturesSpelled(t, cap, name);
    StartsWithConcat(SetterSignature(t, stem, name), SetterBody(m, debug));
    assert "-(void) set" + [Upper(name[0])] + name[1..] + ": (" + t + ")" + name + " {\n"
        == "-(void) set" + cap + ": (" + t + ")" + name + " {\n";
  }

  /** The signature lines spelled out with `get` and `set`. */
  lemma SignaturesSpelled(t: string, cap: string, name: string)
    ensures GetterSignature(t, "et" + cap) == "-(" + t + ") get" + cap + " {\n"
    ensures SetterSignature(t, "et" + cap, name) == "-(void) set" + cap + ": (" + t + ")" + name + " {\n"
  {
  }

  /** Whether an entry of write_methods raises: accessors for a property with an empty name. */
  predicate EntryFails(m: ObjcMethod, etters: bool)
  {
    etters && m.methodName == ""
  }

  /** The text of one entry of write_methods: a method block, or the accessors of a property. */
  function EntryText(v: Variant, m: ObjcMethod, etters: bool, f: Flags): string
  {
    if etters then EttersText(m, f) else MethodBlock(v, m, f.params)
  }

  /** Hooks per entry: one block, or one per enabled accessor. */
  function HooksPer(etters: bool, f: Flags): nat
  {
    if etters then (if f.getters then 1 else 0) + (if f.setters then 1 else 0) else 1
  }

  /** Whether the entries of write_methods raise: some entry does. */
  predicate ListFails(ms: seq<ObjcMethod>, etters: bool)
  {
    ms != [] && (ListFails(ms[..|ms| - 1], etters) || EntryFails(ms[|ms| - 1], etters))
  }

  /**
   * The text of the entries of write_methods, in order, up to the first that raises: each
   * entry is appended after the ones before it, unless one of them raised.
   */
  function ListText(v: Variant, ms: seq<ObjcMethod>, etters: bool, f: Flags): string
  {
    if ms == [] then ""
    else if ListFails(ms, etters) then ListText(v, ms[..|ms| - 1], etters, f)
    else ListText(v, ms[..|ms| - 1], etters, f) + EntryText(v, ms[|ms| - 1], etters, f)
  }

  /** The hooks the entries of write_methods count, up to the first that raises. */
  function ListHooks(ms: seq<ObjcMethod>, etters: bool, f: Flags): nat
  {
    if ms == [] then 0
    else if ListFails(ms, etters) then ListHooks(ms[..|ms| - 1], etters, f)
    else ListHooks(ms[..|ms| - 1], etters, f) + HooksPer(etters, f)
  }

  /** Some property has an empty name. */
  predicate SomeUnnamed(ms: seq<ObjcMethod>)
  {
    exists k :: 0 <= k < |ms| && ms[k].methodName == ""
  }

  /** `(a + 1) * h` counted one `h` at a time. */
  lemma MulSucc(a: nat, h: nat)
    ensures (a + 1) * h == a * h + h
  {
  }

  /**
   * write_methods over a list raises exactly when it writes accessors and some property
   * has an empty name; otherwise `_hook_count` rises by the hooks of every entry.
   */
  lemma {:induction false} ListCount(ms: seq<ObjcMethod>, etters: bool, f: Flags)
    ensures ListFails(ms, etters) <==> etters && SomeUnnamed(ms)
    ensures !ListFails(ms, etters) ==> ListHooks(ms, etters, f) == |ms| * HooksPer(etters, f)
  {
    if ms != [] {
      var init := ms[..|ms| - 1];
      ListCount(init, etters, f);
      MulSucc(|init|, HooksPer(etters, f));
      if SomeUnnamed(init) {
        var k :| 0 <= k < |init| && init[k].methodName == "";
        assert ms[k].methodName == "";
      }
      if SomeUnnamed(ms) && ms[|ms| - 1].methodName != "" {
        var k :| 0 <= k < |ms| && ms[k].methodName == "";
        assert init[k].methodName == "";
      }
    }
  }

  /** The entries of a longer prefix: one more entry at the end, unless an earlier one raised. */
  lemma ListSnoc(v: Variant, ms: seq<ObjcMethod>, i: nat, etters: bool, f: Flags)
    requires i < |ms| && !ListFails(ms[..i], etters)
    ensures ListFails(ms[..i + 1], etters) == EntryFails(ms[i], etters)
    ensures !EntryFails(ms[i], etters) ==>
      ListText(v, ms[..i + 1], etters, f) == ListText(v, ms[..i], etters, f) + EntryText(v, ms[i], etters, f)
      && ListHooks(ms[..i + 1], etters, f) == ListHooks(ms[..i], etters, f) + HooksPer(etters, f)
    ensures EntryFails(ms[i], etters) ==>
      ListText(v, ms[..i + 1], etters, f) == ListText(v, ms[..i], etters, f)
      && ListHooks(ms[..i + 1], etters, f) == ListHooks(ms[..i], etters, f)
  {
    assert ms[..i + 1][..i] == ms[..i];
  }

  /** Once an entry raises, write_methods writes and counts nothing more. */
  lemma {:induction false} ListStops(v: Variant, ms: seq<ObjcMethod>, j: nat, etters: bool, f: Flags)
    requires j <= |ms| && ListFails(ms[..j], etters)
    ensures ListFails(ms, etters)
    ensures ListText(v, ms, etters, f) == ListText(v, ms[..j], etters, f)
    ensures ListHooks(ms, etters, f) == ListHooks(ms[..j], etters, f)
  {
    if j < |ms| {
      var init := ms[..|ms| - 1];
      assert init[..j] == ms[..j];
      ListStops(v, init, j, etters, f);
    } else {
      assert ms[..j] == ms;
    }
  }

  /** write_methods: nothing for an empty list; otherwise the comment, the entries and a blank line. */
  function SectionText(v: Variant, ms: seq<ObjcMethod>, etters: bool, comment: string, f: Flags): string
  {
    if ms == [] then ""
    else "/* " + comment + " */\n" + ListText(v, ms, etters, f) + (if ListFails(ms, etters) then "" else "\n")
  }

  /** Whether the properties' part of __save__ raises (only ios-hooker.py's accessors can). */
  predicate PropertiesFail(v: Variant, props: seq<ObjcMethod>, f: Flags)
  {
    v == IosHooker && (f.getters || f.setters) && ListFails(props, true)
  }

  /** The properties' part of __save__: accessors in ios-hooker.py when enabled, plain blocks in hooker.py. */
  function PropertiesText(v: Variant, props: seq<ObjcMethod>, f: Flags): string
  {
    match v
    case IosHooker =>
      if f.getters || f.setters then SectionText(v, props, true, "Properties", f) else ""
    case Hooker => SectionText(v, props, false, "Properties", f)
  }

  /** The hooks the properties' part of __save__ counts. */
  function PropertiesHookCount(v: Variant, props: seq<ObjcMethod>, f: Flags): nat
  {
    match v
    case IosHooker => if f.getters || f.setters then ListHooks(props, true, f) else 0
    case Hooker => ListHooks(props, false, f)
  }

  /**
   * __save__: the header, `%hook`, the properties, class methods and instance methods
   * sections, and `%end`; after a failure in the properties nothing more is written.
   */
  function SaveText(v: Variant, name: string, props: seq<ObjcMethod>, classMethods: seq<ObjcMethod>,
                    instanceMethods: seq<ObjcMethod>, f: Flags): string
  {
    HeaderText(name) + HookLine(name) + PropertiesText(v, props, f)
      + if PropertiesFail(v, props, f) then ""
        else SectionText(v, classMethods, false, "Class Methods", f)
             + SectionText(v, instanceMethods, false, "Instance Methods", f) + "%end\n\n\n"
  }

  /** The hooks __save__ counts. */
  function SaveHookCount(v: Variant, props: seq<ObjcMethod>, classMethods: seq<ObjcMethod>,
                         instanceMethods: seq<ObjcMethod>, f: Flags): nat
  {
    PropertiesHookCount(v, props, f)
      + if PropertiesFail(v, props, f) then 0
        else ListHooks(classMethods, false, f) + ListHooks(instanceMethods, false, f)
  }

  /** The hooks expected per property: one per enabled accessor (ios-hooker.py) or one block (hooker.py). */
  function PropertyHooks(v: Variant, count: nat, f: Flags): nat
  {
    match v
    case IosHooker => if f.getters || f.setters then count * HooksPer(true, f) else 0
    case Hooker => count
  }

  /**
   * `_hook_count` after __save__: one per class and instance method, and per property one
   * per enabled accessor (ios-hooker.py) or one block (hooker.py). It raises exactly when
   * ios-hooker.py writes accessors for a property with an empty name.
   */
  lemma SaveCount(v: Variant, props: seq<ObjcMethod>, classMethods: seq<ObjcMethod>,
                  instanceMethods: seq<ObjcMethod>, f: Flags)
    ensures PropertiesFail(v, props, f) <==> v == IosHooker && (f.getters || f.setters) && SomeUnnamed(props)
    ensures !PropertiesFail(v, props, f) ==>
      SaveHookCount(v, props, classMethods, instanceMethods, f)
      == PropertyHooks(v, |props|, f) + |classMethods| + |instanceMethods|
  {
    ListCount(props, v == IosHooker, f);
    ListCount(classMethods, false, f);
    ListCount(instanceMethods, false, f);
  }

  /** __save__ always writes the header first. */
  lemma SaveStartsWithHeader(v: Variant, name: string, props: seq<ObjcMethod>, classMethods: seq<ObjcMethod>,
                             instanceMethods: seq<ObjcMethod>, f: Flags)
    ensures StartsWith(SaveText(v, name, props, classMethods, instanceMethods, f), HeaderText(name))
  {
    var h := HeaderText(name);
    var t := SaveText(v, name, props, classMethods, instanceMethods, f);
    assert t == h + t[|h|..];
    StartsWithConcat(h, t[|h|..]);
  }

  /** filter_methods: the methods whose name the pattern matches, in their order. */
  function Filtered(ms: seq<ObjcMethod>, matches: string -> bool): (r: seq<ObjcMethod>)
    ensures |r| <= |ms|
  {
    if ms == [] then []
    else
      var last := ms[|ms| - 1];
      Filtered(ms[..|ms| - 1], matches) + (if matches(last.methodName) then [last] else [])
  }

  /** filter_methods keeps exactly the methods whose name matches. */
  lemma {:induction false} FilteredMembers(ms: seq<ObjcMethod>, matches: string -> bool)
    ensures forall m :: m in Filtered(ms, matches) <==> m in ms && matches(m.methodName)
  {
    if ms != [] {
      var init := ms[..|ms| - 1];
      FilteredMembers(init, matches);
      assert ms == init + [ms[|ms| - 1]];
      assert forall m :: m in ms <==> m in init || m == ms[|ms| - 1];
    }
  }

  /** `xs` is `ys` with some elements removed, the rest in order. */
  predicate IsSubsequence<T(==)>(xs: seq<T>, ys: seq<T>)
    decreases |ys|
  {
    xs == [] || (ys != [] && ((xs[|xs| - 1] == ys[|ys| - 1] && IsSubsequence(xs[..|xs| - 1], ys[..|ys| - 1]))
                              || IsSubsequence(xs, ys[..|ys| - 1])))
  }

  /** filter_methods keeps order: its result is a subsequence of its input. */
  lemma {:induction false} FilteredSubsequence(ms: seq<ObjcMethod>, matches: string -> bool)
    ensures IsSubsequence(Filtered(ms, matches), ms)
  {
    if ms != [] {
      var init := ms[..|ms| - 1];
      FilteredSubsequence(init, matches);
      var r := Filtered(ms, matches);
      if matches(ms[|ms| - 1].methodName) {
        assert r[|r| - 1] == ms[|ms| - 1] && r[..|r| - 1] == Filtered(init, matches);
      } else {
        assert r == Filtered(init, matches);
      }
    }
  }

  /** Whether __regex__ writes anything: some method, class method or property matches. */
  predicate AnyMatches(props: seq<ObjcMethod>, classMethods: seq<ObjcMethod>, instanceMethods: seq<ObjcMethod>,
                       matches: string -> bool)
  {
    0 < |Filtered(props, matches)| + |Filtered(classMethods, matches)| + |Filtered(instanceMethods, matches)|
  }

  /** __regex__: __save__ on the matching methods, or nothing at all when none matches. */
  function RegexText(v: Variant, name: string, props: seq<ObjcMethod>, classMethods: seq<ObjcMethod>,
                     instanceMethods: seq<ObjcMethod>, matches: string -> bool, f: Flags): string
  {
    if AnyMatches(props, classMethods, instanceMethods, matches)
    then SaveText(v, name, Filtered(props, matches), Filtered(classMethods, matches),
                  Filtered(instanceMethods, matches), f)
    else ""
  }

  /** The hooks __regex__ counts. */
  function RegexHookCount(v: Variant, props: seq<ObjcMethod>, classMethods: seq<ObjcMethod>,
                          instanceMethods: seq<ObjcMethod>, matches: string -> bool, f: Flags): nat
  {
    if AnyMatches(props, classMethods, instanceMethods, matches)
    then SaveHookCount(v, Filtered(props, matches), Filtered(classMethods, matches),
                       Filtered(instanceMethods, matches), f)
    else 0
  }

  /** __regex__ writes and counts nothing exactly when no method, class method or property matches. */
  lemma RegexWritesNothingIff(v: Variant, name: string, props: seq<ObjcMethod>, classMethods: seq<ObjcMethod>,
                              instanceMethods: seq<ObjcMethod>, matches: string -> bool, f: Flags)
    ensures var none := forall m :: (m in props || m in classMethods || m in instanceMethods) ==> !matches(m.methodName);
      (RegexText(v, name, props, classMethods, instanceMethods, matches, f) == "" <==> none)
      && (none ==> RegexHookCount(v, props, classMethods, instanceMethods, matches, f) == 0)
  {
    var fp, fc, fi := Filtered(props, matches), Filtered(classMethods, matches), Filtered(instanceMethods, matches);
    FilteredMembers(props, matches);
    FilteredMembers(classMethods, matches);
    FilteredMembers(instanceMethods, matches);
    if 0 < |fp| + |fc| + |fi| {
      SaveStartsWithHeader(v, name, fp, fc, fi, f);
      var m := if |fp| > 0 then fp[0] else if |fc| > 0 then fc[0] else fi[0];
      assert m in fp || m in fc || m in fi;
    } else {
      assert fp == [] && fc == [] && fi == [];
    }
  }
}
