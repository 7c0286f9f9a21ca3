/**
 * The value types of the hook generator: Objective-C types, method arguments and methods,
 * and their textual forms (`__str__`).
 */
module ObjcTypes {
  import opened Wrappers
  import opened PyStrings

  /** The two versions of the tool: hooker.py (v0.1) and ios-hooker.py (v0.1.1). */
  datatype Variant = Hooker | IosHooker

  /** NSLOG: the printf conversion used to log a value of a few primitive types. */
  const NsLogFormats: map<string, string> := map["int" := "d", "unsigned" := "d", "BOOL" := "d", "float" := "g"]

  /** The conversion logged for a type text: its NSLOG entry, or `@` (an object) otherwise. */
  function LogFormat(typeText: string): string
  {
    if typeText in NsLogFormats then NsLogFormats[typeText] else "@"
  }

  /** ObjcType: a type name and whether a `*` was split off it. */
  datatype ObjcType = ObjcType(className: string, isPointer: bool)

  /** The last `' '`-separated word of a type name. */
  function LastWord(name: string): string
  {
    var words := Split(name, ' ');
    words[|words| - 1]
  }

  /**
   * ObjcType.is_known against a registry (`KnownTypes` of the version at hand): a name with a
   * space is judged by its last word, any other name whole.
   */
  predicate IsKnown(t: ObjcType, known: string -> bool)
  {
    if ' ' in t.className then known(LastWord(t.className))
    else known(t.className)
  }

  /** ObjcType.__str__: the name, followed by `*` for a pointer. */
  function TypeText(t: ObjcType): string
  {
    if t.isPointer then t.className + "*" else t.className
  }

  /** No NSLOG key ends in `*`, so a pointer type is always logged as an object, with `%@`. */
  lemma PointersLoggedAsObjects(t: ObjcType)
    requires t.isPointer
    ensures LogFormat(TypeText(t)) == "@"
  {
    var text := TypeText(t);
    assert text[|text| - 1] == '*';
    assert text !in NsLogFormats by {
      assert "int"[2] != '*' && "unsigned"[7] != '*' && "BOOL"[3] != '*' && "float"[4] != '*';
    }
  }

  /** ObjcArgument: `external_name:(class_type)component`. */
  datatype ObjcArgument = ObjcArgument(externalName: string, classType: ObjcType, component: string)

  /** A type written as text: one trailing `*` becomes the pointer flag. */
  function TypeFromText(text: string): (r: ObjcType)
    ensures TypeText(r) == text
    ensures r.isPointer <==> EndsWith(text, "*")
  {
    if EndsWith(text, "*") then ObjcType(text[..|text| - 1], true) else ObjcType(text, false)
  }

  /** ObjcArgument.__init__: the type text is read with `TypeFromText`. */
  function MakeArgument(classType: string, component: string, externalName: string): (r: ObjcArgument)
    ensures TypeText(r.classType) == classType
    ensures r.classType.isPointer <==> EndsWith(classType, "*")
    ensures r.externalName == externalName && r.component == component
  {
    ObjcArgument(externalName, TypeFromText(classType), component)
  }

  /**
   * Reading a type's own text back gives the same type, unless a non-pointer type name
   * itself ends in `*` (which would come back as a pointer).
   */
  lemma TypeTextRoundTrip(t: ObjcType)
    requires !t.isPointer ==> !EndsWith(t.className, "*")
    ensures TypeFromText(TypeText(t)) == t
  {
    if t.isPointer {
      var tt := t.className + "*";
      assert tt[|tt| - 1..] == "*";
      assert tt[..|tt| - 1] == t.className;
    }
  }

  /** Hence an argument built from its own type text is the same argument. */
  lemma ArgumentTypeRoundTrip(a: ObjcArgument)
    requires !a.classType.isPointer ==> !EndsWith(a.classType.className, "*")
    ensures MakeArgument(TypeText(a.classType), a.component, a.externalName) == a
  {
    TypeTextRoundTrip(a.classType);
  }

  /** ObjcArgument.__str__. */
  function ArgumentText(a: ObjcArgument): string
  {
    a.externalName + ":(" + TypeText(a.classType) + ") " + a.component
  }

  /**
   * ObjcMethod: a selector name, its arguments in source order, the return type as set
   * (None until the setter runs) and whether it is a class (`+`) method.
   */
  datatype ObjcMethod = ObjcMethod(methodName: string, arguments: seq<ObjcArgument>,
                                   retType: Option<ObjcType>, isStatic: bool)

  /** ObjcMethod.return_type: the type set, or `void` when none was set. */
  function ReturnType(m: ObjcMethod): ObjcType
  {
    match m.retType
    case Some(t) => t
    case None => ObjcType("void", false)
  }

  /** The texts of a list of arguments. */
  function ArgumentTexts(args: seq<ObjcArgument>): seq<string>
  {
    seq(|args|, k requires 0 <= k < |args| => ArgumentText(args[k]))
  }

  /** ObjcMethod.__str__: `+(T) name` or `-(T) name`, then the arguments joined by spaces. */
  function MethodText(m: ObjcMethod): string
  {
    (if m.isStatic then "+" else "-") + "(" + TypeText(ReturnType(m)) + ") "
      + m.methodName + Join(" ", ArgumentTexts(m.arguments))
  }

  /** A type's verdict is the verdict on the last word of its name, whether or not it has a space. */
  lemma IsKnownByLastWord(t: ObjcType, known: string -> bool)
    ensures IsKnown(t, known) <==> known(LastWord(t.className))
  {
    if ' ' !in t.className {
      SplitWithout(t.className, ' ');
    }
  }

  /** A name of several words is judged by the word after its last space. */
  lemma IsKnownMultiWord(front: string, last: string, isPointer: bool, known: string -> bool)
    requires ' ' !in last
    ensures IsKnown(ObjcType(front + " " + last, isPointer), known) <==> known(last)
  {
    var name := front + " " + last;
    assert name == front + [' '] + last;
    assert ' ' in name by { assert name[|front|] == ' '; }
    SplitConcat(front, last, ' ');
    SplitWithout(last, ' ');
  }
}
