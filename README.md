# Objective-C header parser and Logos hook generator, in Dafny

This project models the core of two versions of a small tool: `hooker.py` (v0.1) and
`ios-hooker.py` (v0.1.1). The tool reads the text of an Objective-C `@interface` header
(as a class dump prints it) and writes Logos hooks for Theos / Mobile Substrate. Each hook
uses `%hook`, `%log`, `%orig` and `%end`. The two versions share one model, which takes a
`Variant` parameter (`Hooker` or `IosHooker`). The versions differ in these places:

- which instance methods are skipped;
- how a property's type is read;
- how a method's return type is marked as a pointer;
- how a method name is sliced;
- whether properties become getter and setter hooks or plain method hooks;
- whether `bool` is a known type;
- whether a block ends with a blank line;
- parameter logging, which only `ios-hooker.py` has.

Modules, in the order the tool runs them:

- `Wrappers`: `Option`, `Result`, and `Failure`, which models the Python exception raised.
  `SubstringNotFound` is the `ValueError` of `str.index`/`str.rindex`. `IndexOutOfRange` is an
  `IndexError`. `UnpackMismatch` is the `ValueError` of a tuple unpacking. `NoClassName` is
  the `ValueError` of `class_name`.
- `PyStrings`: the Python string operations the tool relies on. These are `str.split` on
  one character (empty fields kept), `join`, `index`/`rindex`, slices with Python's
  negative and clamped bounds, `startswith`/`endswith` and `in`. It also holds the lemmas
  that relate these operations.
- `ObjcTypes`: `ObjcType`, `ObjcArgument`, `ObjcMethod` and their `__str__`, `is_known`,
  and the `NSLOG` table.
- `KnownTypeRegistry`: `KNOWN_TYPES` of each version, held as a set.
- `LineSlicing`: the `get_*` helpers of `ObjcHeader`, one definition per version.
- `Tokenizer`: the `ObjcMethod.arguments` setter. Its two loops are methods, proved equal to
  specification functions. A round trip from argument declarations back to arguments is
  proved.
- `ModelBuilder`: `class_name`, `class_methods`, `instance_methods` and `properties` as
  specification functions over the header's lines.
- `Renderer`: the text `__save__`, `__regex__` and the `write_*` methods produce, and the
  hooks they count.
- `HeaderModel`: the class `ObjcHeader`. It holds the cached class name, `_hook_count` and
  the switches, and it writes into an `OutputFile` object that stands for `output_fp`. Its
  methods keep the source's loops and in-place updates. Each method is proved equal to the
  specification functions above. `save_hooks` is described end to end by `HooksText`,
  `HooksCount` and `HooksOutcome`.

Three inputs that the tool obtains from outside are parameters here:

- the header's text, which the tool reads from a file;
- the regular expression, given as a predicate `string -> bool` that stands for
  `regex.match`;
- the known-type test, which the constructor sets to the version's registry.

`hooker.py` has no `getters`, `setters`, `params` or `debug` switches. The model gives every
`ObjcHeader` these switches, and the `Hooker` variant never reads them.

## Model

| member | source | states |
|---|---|---|
| ObjcTypes.TypeFromText | ios-hooker.py:103-106 | a type text ending in `*` is stored with exactly that `*` removed and `isPointer` set; `__str__` gives the text back |
| ObjcTypes.MakeArgument | ios-hooker.py:100-106 | `ObjcArgument.__init__` keeps the external name and the local name; `str()` of the stored type is the given type text, and the type is a pointer iff that text ends in `*` |
| ObjcTypes.TypeTextRoundTrip | ios-hooker.py:93-94 | reading `str()` of a type back gives the same type, for every type whose non-pointer name does not end in `*` |
| ObjcTypes.ArgumentTypeRoundTrip | ios-hooker.py:100-111 | an argument built from its own type text, local name and external name is that argument |
| ObjcTypes.TypeText | ios-hooker.py:93-94 | `ObjcType.__str__`: the name, followed by `*` for a pointer; `TypeFromText` reads it back (`TypeTextRoundTrip`) |
| ObjcTypes.ArgumentText | ios-hooker.py:108-111 | `ObjcArgument.__str__`: `ext:(T) local`, which is the argument's declaration with a space after the type's `)` (`ModelBuilder.ArgumentTextOfDecl`) |
| ObjcTypes.ReturnType | ios-hooker.py:123-126 | `return_type`: the type set by the setter, or `void` when none was set |
| ObjcTypes.MethodText | ios-hooker.py:168-173 | `ObjcMethod.__str__`: `+(T) ` or `-(T) `, the name, then the arguments' texts joined by spaces; for a method read back from its line, `ModelBuilder.MethodTextOfLine` gives the whole text |
| ObjcTypes.LogFormat | ios-hooker.py:381 | the printf conversion `write_params` and the accessors use: the `NSLOG` entry of the type text (ios-hooker.py:73), `@` otherwise |
| ObjcTypes.PointersLoggedAsObjects | ios-hooker.py:381 | no `NSLOG` key ends in `*`, so a pointer type is always logged with `%@` |
| ObjcTypes.IsKnown | ios-hooker.py:84-91 | `is_known`, the same in hooker.py:78-83: a name holding a space is judged by its last word, any other name whole; `IsKnownByLastWord` joins the two branches |
| ObjcTypes.IsKnownByLastWord | ios-hooker.py:84-91 | `is_known` holds iff the last `' '`-separated word of the name is in the list (for a name without a space, the whole name) |
| ObjcTypes.IsKnownMultiWord | ios-hooker.py:88-89 | a name of several words is judged by the word after its last space |
| KnownTypeRegistry.BoolOnlyInIosHooker | ios-hooker.py:28 | the two versions' lists differ in exactly one name, `bool`, which only ios-hooker.py has (hooker.py:26) |
| KnownTypeRegistry.BoolTypeKnownOnlyInIosHooker | hooker.py:79-83 | the type `bool` is known to ios-hooker.py and unknown to hooker.py |
| KnownTypeRegistry.OutsideRegistry | hooker.py:25-70 | `*` is never a known name, and `bool` is not known to hooker.py |
| KnownTypeRegistry.SpacedPointerNeverKnown | ios-hooker.py:87-89 | a type spelled with a space before its `*` (`NSString *`) is never known, in either version |
| KnownTypeRegistry.UnsignedIntKnown | ios-hooker.py:87-89 | `unsigned int` is known in both versions, through its last word `int` |
| KnownTypeRegistry.FoundationNamesKnown | ios-hooker.py:29-71 | every Foundation class and protocol name of the list is known |
| Tokenizer.Absorb | ios-hooker.py:150-156 | merging the tokens after one that opens `(`: a success holds a `)` and extends the opening token; running out of tokens is the IndexError of `args[index + count]` |
| Tokenizer.Segments | ios-hooker.py:147-157 | the first loop yields exactly one segment per token that holds a `(`; its only error is that IndexError |
| Tokenizer.ParseSegment | ios-hooker.py:159-165 | parsing succeeds iff the segment holds exactly one `:` and the part after it exactly one `)`; every failure is the unpacking ValueError; a parsed argument's names hold no `:` and its local name no `)` |
| Tokenizer.ParseSegments | ios-hooker.py:158-166 | the second loop yields one argument per segment |
| Tokenizer.ArgumentsOf | ios-hooker.py:144-166 | an empty argument text yields no arguments; a parse yields one argument per token holding `(` |
| Tokenizer.AbsorbTokens | ios-hooker.py:151-156 | the `while` loop that grows `arg` computes `Absorb` of the token and the tokens after it |
| Tokenizer.CombineTokens | ios-hooker.py:145-157 | the first loop of the setter computes `Segments` of the tokens |
| Tokenizer.ParseAll | ios-hooker.py:158-166 | the second loop, appending to `_arguments` in order, computes `ParseSegments` |
| Tokenizer.ParseArguments | ios-hooker.py:137-166 | the setter computes `ArgumentsOf` of its argument text |
| Tokenizer.AbsorbFails | ios-hooker.py:152-156 | merging fails iff neither the opening token nor any later token holds `)`; the ValueError check at 155-156 cannot fire first |
| Tokenizer.SegmentsFailIffUnclosed | ios-hooker.py:150-156 | the setter raises iff some token opens a `(` that neither it nor any later token closes |
| Tokenizer.SkipPlain | ios-hooker.py:147-150 | tokens with no `(` never become arguments on their own, wherever they stand |
| Tokenizer.SegmentsExtendOpeners | ios-hooker.py:150-157 | in a successful parse, the k-th segment extends the k-th opening token and holds a `)` |
| Tokenizer.AbsorbThrough | ios-hooker.py:152-154 | an opening token absorbs the following tokens, joined by single spaces, up to and including the first that holds `)` |
| Tokenizer.ParsePieces | ios-hooker.py:159-165 | `ext:(type)local` with plain pieces parses into the argument with those pieces |
| Tokenizer.ParseSegmentOfDecl | ios-hooker.py:159-165 | the declaration of an argument parses back to that argument |
| Tokenizer.SegmentsOfDecl | ios-hooker.py:147-157 | the tokens of one declaration, followed by any tokens, recombine into that declaration |
| Tokenizer.SegmentsOfDecls | ios-hooker.py:145-157 | the tokens of declarations joined by spaces recombine into exactly those declarations |
| Tokenizer.ParseSegmentsOfDecls | ios-hooker.py:158-166 | the declarations parse back to the arguments they declare, in order |
| Tokenizer.ArgumentsRoundTrip | ios-hooker.py:137-166 | the setter applied to the argument text of a method line, `:(T1)a sel:(T2)b`, gives back the declared arguments |
| LineSlicing.IosMethodName | ios-hooker.py:273-277 | it fails iff the line has no `)` |
| LineSlicing.HookerMethodName | hooker.py:258-265 | it fails iff the line has no `)` |
| LineSlicing.MethodName | ios-hooker.py:273-277 | for either version, a line without `)` is exactly the `str.index` ValueError |
| LineSlicing.IosMethodNameSpec | ios-hooker.py:273-277 | the name is a prefix, holding no `:`, of the text after the first `)`; it stops at that text's first `:`, or without one, one character before the end |
| LineSlicing.MethodNamesAgree | hooker.py:258-265 | the two versions give the same method name unless a `:` comes before the first `)` |
| LineSlicing.HookerMethodNameColonFirst | hooker.py:260-265 | when a `:` comes before the first `)`, hooker.py's method name is empty |
| LineSlicing.IosReturnType | ios-hooker.py:279-283 | it fails iff the line has no `)` |
| LineSlicing.HookerReturnType | hooker.py:267-271 | it fails iff the line has no `)` |
| LineSlicing.ReturnTypeOf | ios-hooker.py:279-283 | for either version, a line without `)` is exactly the `str.index` ValueError |
| LineSlicing.IosReturnTypeSpec | ios-hooker.py:279-283 | the return type's name is `line[2:p]` for the first `)` at `p`, any `*` kept, and it is a pointer iff that name holds `*` |
| LineSlicing.HookerReturnTypeSpec | hooker.py:267-271 | the name is also `line[2:p]`, but it is a pointer iff `line[:p + 1]` holds `*` anywhere |
| LineSlicing.ReturnTypesAgree | hooker.py:267-271 | the versions read the same return type whenever the first two characters hold no `*` |
| LineSlicing.ArgumentsText | ios-hooker.py:285-287 | the result is `""` without a `:`; otherwise it runs from the first `:` to just before the last character |
| LineSlicing.PropertyName | ios-hooker.py:289-291 | a property's name holds no space |
| LineSlicing.IosPropertyType | ios-hooker.py:293-302 | it fails iff the line lacks a `)` or a space |
| LineSlicing.Unstar | ios-hooker.py:296-302 | a pointer iff the text ends in `*`; the name is no longer than the text |
| LineSlicing.HookerPropertyType | hooker.py:281-284 | never a pointer; it fails iff there is no `)` (ValueError) or the text after it has fewer than two words (IndexError) |
| LineSlicing.MethodLineReturnType | ios-hooker.py:279-283 | from a method line `-(T)name...;`, both versions read back `T`, its text whole, as a pointer iff `T` holds `*` |
| LineSlicing.MethodLineName | ios-hooker.py:273-277 | from a method line, both versions read back the method name |
| LineSlicing.MethodLineArguments | ios-hooker.py:285-287 | from a method line, `get_arguments` reads back the declared argument text |
| LineSlicing.PropertyLineName | ios-hooker.py:289-291 | from `@property(attrs) T name;`, the name is read back |
| LineSlicing.IosPropertyLineType | ios-hooker.py:293-302 | from `@property(attrs) T name;`, ios-hooker.py reads back the type that `T` declares |
| LineSlicing.UnstarSpaced | ios-hooker.py:296-302 | dropping the `*` and then the leading space from `" " + T` gives the type that `T` declares |
| LineSlicing.HookerPropertyLineType | hooker.py:281-284 | from `@property(attrs) T name;`, hooker.py reads only the first word of `T`, never as a pointer |
| LineSlicing.PropertyTypesAgree | hooker.py:281-284 | for a one-word `T` without a trailing `*`, both versions read the same property type |
| ModelBuilder.ClassNameOf | ios-hooker.py:193-206 | with no `@interface` line it raises the no-class-name ValueError; otherwise the only other error is the IndexError of a one-word line; the name holds no space |
| ModelBuilder.ClassNameSkipsPrefix | ios-hooker.py:199-205 | lines before the first `@interface` line do not affect the class name |
| ModelBuilder.InterfaceClassName | ios-hooker.py:199-205 | the class name is the second word of the first `@interface` line |
| ModelBuilder.MethodEntry | ios-hooker.py:213-226 | a line without `)` raises the `str.index` ValueError; a kept entry has the scan's static flag and a return type, is known when unknowns are dropped, and is never a skipped destructor name |
| ModelBuilder.PropertyEntry | ios-hooker.py:258-270 | a kept property becomes a non-static method with no arguments, its name from `get_property_name` and its return type the property type, known when unknowns are dropped |
| ModelBuilder.Entry | ios-hooker.py:208-271 | every entry a scan keeps is well formed: it has a return type, it is static iff it is a class method, a property has no arguments, an instance method is never a skipped name, and a kept entry is known when unknowns are dropped |
| ModelBuilder.Entries | ios-hooker.py:211-227 | a scan keeps at most one entry per line |
| ModelBuilder.EntriesWellFormed | ios-hooker.py:229-251 | every entry of a successful scan is well formed; in particular `instance_methods` never holds `.cxx_destruct`, nor in ios-hooker.py `cxx_construct` |
| ModelBuilder.EntriesAppend | ios-hooker.py:212-226 | a scan over two blocks of lines gives the first block's entries followed by the second's; an error in the first block stops the scan |
| ModelBuilder.OtherLinesIgnored | ios-hooker.py:212-213 | lines without the scan's prefix contribute nothing |
| ModelBuilder.Selected | ios-hooker.py:212-213 | the lines a scan selects are lines of the header that carry its prefix |
| ModelBuilder.NothingDroppedWhenKept | ios-hooker.py:218-221 | without `drop_unknowns`, `class_methods` and `properties` keep one entry per selected line |
| ModelBuilder.MethodLineEntry | ios-hooker.py:213-226 | a method line declared from a name, a return type and arguments is read back as that method, its return type text kept whole; it is skipped or dropped exactly as the scan's rules say |
| ModelBuilder.IosPropertyLineEntry | ios-hooker.py:258-270 | ios-hooker.py reads a property line back as the property with its declared type |
| ModelBuilder.HookerPropertyLineEntry | hooker.py:245-255 | hooker.py reads a property line back with only the first word of its type, never as a pointer |
| ModelBuilder.LinesSelectedByPrefix | ios-hooker.py:213 | a method line is selected by exactly the scan its sign names; a property line is selected by the property scan and by neither method scan |
| ModelBuilder.ArgumentTextOfDecl | ios-hooker.py:108-111 | `str()` of a declared argument is its declaration `ext:(T)local` with a space inserted after the `)` that closes its type |
| ModelBuilder.ArgumentTextsOfDecls | ios-hooker.py:171-173 | the argument texts `__str__` joins are, one per argument and in order, the declarations with that space inserted |
| ModelBuilder.MethodTextOfLine | ios-hooker.py:168-173 | a method line `s(T)name:(T1)a b:(T2)c;` that a scan keeps renders as `s(T') name:(T1) a b:(T2) c`, where `T'` is `T` with a second `*` when `T` holds one (ios-hooker.py:281-283, hooker.py:267-271): `-(NSString *)foo;` becomes `-(NSString **) foo` |
| Renderer.HeaderText | ios-hooker.py:351-355 | `write_header`: the class name between two borders of `=`; `HeaderAligned` states its shape |
| Renderer.HeaderAligned | ios-hooker.py:351-355 | both borders of the header are `len(class_name) + 2` `=` characters, as wide as the name with its two-space margins |
| Renderer.ParamLine | ios-hooker.py:380-382 | one `NSLog` line: `str(arg)`, the argument's `NSLOG` conversion (`%@` for objects) and its local name |
| Renderer.ParamsText | ios-hooker.py:378-382 | `write_params`: one `ParamLine` per argument, in order; one more argument adds one line at the end (`ParamsTextSnoc`) |
| Renderer.MethodBlock | ios-hooker.py:366-375 | one hook of `write_methods`: `str(method)`, `%log`, the parameter lines when `params` is set (ios-hooker.py only), the `%orig` line and the closing brace; `MethodBlockOpens` and `MethodBlockEnds` state its two ends |
| Renderer.MethodBlockOpens | ios-hooker.py:367-368 | a method block opens with `str(method)`, ` {` and `%log;` |
| Renderer.MethodBlockEnds | ios-hooker.py:371-375 | a block ends with `%orig;` iff `void` occurs in its return-type text, and otherwise with `return %orig;` |
| Renderer.AccessorStem | ios-hooker.py:390-391 | an accessor name can be built iff the property name is non-empty; an empty name is the IndexError of `property_name[0]` |
| Renderer.AccessorNames | ios-hooker.py:391-395 | the accessor names are `get`/`set` followed by the property name with its first letter upper-cased |
| Renderer.GetterText | ios-hooker.py:392-404 | the getter hook: `-(T) getName {`, an optional debug line, the `%orig` read, the `NSLog` of the value and its `return` |
| Renderer.SetterText | ios-hooker.py:405-415 | the setter hook: `-(void) setName: (T)name {`, an optional debug line, the `NSLog` of the value and `%orig(name)` |
| Renderer.EttersText | ios-hooker.py:384-416 | `write_etters`: the getter hook when `getters` is set, the setter hook when `setters` is set, then a blank line; nothing when the property name is empty |
| Renderer.GetterOpens | ios-hooker.py:394-395 | a getter hook opens with `-(T) getName {` |
| Renderer.SetterOpens | ios-hooker.py:407-408 | a setter hook opens with `-(void) setName: (T)name {` |
| Renderer.ListCount | ios-hooker.py:362-366 | the entries of `write_methods` raise iff accessors are written for a property with an empty name; otherwise the hooks counted are the number of entries times the hooks per entry |
| Renderer.ListStops | ios-hooker.py:362-364 | once an entry raises, `write_methods` writes and counts nothing more |
| Renderer.SectionText | ios-hooker.py:357-376 | `write_methods`: nothing for an empty list, otherwise the comment, each entry's text, and a blank line unless an entry raised |
| Renderer.SaveText | ios-hooker.py:341-349 | `__save__`: the header, `%hook`, the properties' part, the class and instance methods' sections and `%end`, stopping after a raising properties' part; `SaveStartsWithHeader` |
| Renderer.SaveHookCount | ios-hooker.py:341-349 | the hooks `__save__` adds to `_hook_count`, which `SaveCount` gives in closed form |
| Renderer.SaveCount | ios-hooker.py:341-349 | `__save__` raises iff ios-hooker.py writes accessors for a property with an empty name; otherwise `_hook_count` rises by one per class and instance method, and per property by one per enabled accessor (ios-hooker.py) or by one (hooker.py) |
| Renderer.SaveStartsWithHeader | ios-hooker.py:343 | `__save__` always writes the comment header first |
| Renderer.Filtered | ios-hooker.py:304-308 | `filter_methods` never returns more methods than it was given |
| Renderer.FilteredMembers | ios-hooker.py:308 | `filter_methods` keeps exactly the methods whose name matches |
| Renderer.FilteredSubsequence | hooker.py:286-292 | `filter_methods` keeps order: its result is a subsequence of its input |
| Renderer.RegexText | ios-hooker.py:332-339 | `__regex__`: `__save__` on the matching entries, or nothing when none matches; `RegexWritesNothingIff` |
| Renderer.RegexHookCount | ios-hooker.py:332-339 | the hooks `__regex__` counts: those of `__save__` on the matching entries, or none |
| Renderer.RegexWritesNothingIff | ios-hooker.py:332-339 | `__regex__` writes nothing iff no property, class method or instance method matches, and it then counts nothing |
| HeaderModel.ScannedSave | ios-hooker.py:316-321 | without a pattern, the `try` of `save_hooks` writes, counts and fails as `__save__` does on the three scans |
| HeaderModel.ScannedRegex | ios-hooker.py:314-315 | with a pattern, the `try` of `save_hooks` writes, counts and fails as `__regex__` does |
| HeaderModel.HooksText | ios-hooker.py:310-321 | the text `save_hooks` writes: nothing without a class name, otherwise what its `try` writes before any error; `HooksOfScannedHeader` and `HooksWithPattern` |
| HeaderModel.HooksCount | ios-hooker.py:310-321 | the hooks `save_hooks` adds to `_hook_count`, none without a class name |
| HeaderModel.HooksOutcome | ios-hooker.py:310-330 | how `save_hooks` ends: the class name's error escapes, an error inside the `try` is caught, otherwise the hooks are written |
| HeaderModel.HooksOfScannedHeader | ios-hooker.py:310-321 | for a header with a class that scans cleanly, `save_hooks` without a pattern writes the header first; it succeeds unless an unnamed property gets accessors; on success it counts one hook per method and, per property, the enabled accessors (or one) |
| HeaderModel.HooksWithPattern | ios-hooker.py:332-339 | with a pattern, `save_hooks` writes nothing iff no entry name matches, and then counts nothing and succeeds |
| HeaderModel.ObjcHeader.constructor | ios-hooker.py:179-191 | a new header holds the source text and `drop_unknowns`; all switches are off, no class name is cached, the hook count is zero, and the known-type test is the version's registry |
| HeaderModel.ObjcHeader.ClassName | ios-hooker.py:193-206 | `class_name` returns `ClassNameOf` of the lines, caches a found name, and leaves the cache alone on an error; the cache always agrees with the header |
| HeaderModel.ObjcHeader.ReadEntry | ios-hooker.py:213-226 | reading one selected line gives that line's `Entry` |
| HeaderModel.ObjcHeader.ScanLine | ios-hooker.py:212-226 | one turn of a scan loop: the entries still to come after `found` are those after this line, with this line's entry appended to `found` or its error returned |
| HeaderModel.ObjcHeader.Scan | ios-hooker.py:208-227 | the `class_methods`, `instance_methods` and `properties` loops compute `Entries` of the header's lines |
| HeaderModel.ObjcHeader.FilterMethods | hooker.py:286-292 | the `filter_methods` loop computes `Filtered` |
| HeaderModel.ObjcHeader.WriteHeader | ios-hooker.py:351-355 | appends exactly `HeaderText` of the cached class name |
| HeaderModel.ObjcHeader.WriteParams | ios-hooker.py:378-382 | appends one `NSLog` line per argument, in order |
| HeaderModel.ObjcHeader.WriteMethodBlock | ios-hooker.py:366-375 | appends one method block and counts one hook |
| HeaderModel.ObjcHeader.WriteGetter | ios-hooker.py:392-404 | appends the getter hook and counts it iff `getters` is set |
| HeaderModel.ObjcHeader.WriteSetter | ios-hooker.py:405-415 | appends the setter hook and counts it iff `setters` is set |
| HeaderModel.ObjcHeader.WriteEtters | ios-hooker.py:384-416 | appends the accessors and a blank line, counting one hook per enabled accessor; it raises the IndexError, writing and counting nothing, iff the property name is empty |
| HeaderModel.ObjcHeader.WriteEntry | ios-hooker.py:362-375 | one entry of `write_methods`: its text and hooks, or nothing when it raises |
| HeaderModel.ObjcHeader.WriteNext | ios-hooker.py:362-375 | one turn of the `write_methods` loop extends the text and count of the entries before it by this entry's, and it raises iff this entry does |
| HeaderModel.ObjcHeader.WriteEntries | ios-hooker.py:362-375 | the `write_methods` loop appends `ListText` and counts `ListHooks`; it raises iff some entry does, and then stops |
| HeaderModel.ObjcHeader.WriteMethods | ios-hooker.py:357-376 | `write_methods` writes nothing for an empty list; otherwise it writes the comment, the entries and a blank line, which is left out when an entry raises |
| HeaderModel.ObjcHeader.WriteProperties | ios-hooker.py:345-346 | the properties' part of `__save__`: accessors when `getters` or `setters` is set in ios-hooker.py, plain blocks in hooker.py (hooker.py:322) |
| HeaderModel.ObjcHeader.Save | ios-hooker.py:341-349 | `__save__` appends `SaveText` and counts `SaveHookCount`; it raises iff the properties' part does |
| HeaderModel.ObjcHeader.ScanHeader | ios-hooker.py:317-321 | the three scans in order, the first error ending them, compute `ScanAll` |
| HeaderModel.ObjcHeader.SaveMatching | ios-hooker.py:335-339 | the filtered lists are saved iff any is non-empty; the text and count are `RegexText` and `RegexHookCount` |
| HeaderModel.ObjcHeader.Regex | ios-hooker.py:332-339 | `__regex__` writes, counts and ends as the `try` of `save_hooks` with a pattern specifies |
| HeaderModel.ObjcHeader.SaveScanned | ios-hooker.py:316-321 | `__save__` on the three scans writes, counts and ends as the `try` of `save_hooks` without a pattern specifies |
| HeaderModel.ObjcHeader.SaveHooks | ios-hooker.py:310-330 | `save_hooks` writes `HooksText`, counts `HooksCount` and ends with `HooksOutcome`: the class name's error escapes, a caught error keeps what was written; a class name found on the way stays cached |

## Left out

- The command line (`__main__`, argparse), `scan_directory` and `parser_headers`. These cover directory walking, file-name filtering and progress counters, which are I/O.
- Opening and reading the header file in `ObjcHeader.__init__`. The text is a constructor parameter. The `file_path`, `file_name`, `class_fp` and `verbose` fields are not kept.
- `display_info`, the `INFO`/`WARN` prefixes and every verbose `print`: terminal output only. `save_hooks` reports what it catches as an `Outcome` value instead of printing a warning.
- `compile_regex` and the regular-expression engine. A pattern is an abstract predicate on method names. An invalid pattern, which exits the process, is not modelled.
- `write_includes` and `write_load_hook`: constant boilerplate with no logic.
- `ObjcType.comments` (ios-hooker.py:82): it is set and never read.
- The `elif verbose` branch of hooker.py's `save_hooks` (hooker.py:307-308). It cannot run, because `class_name` either returns a string or raises.
- I/O errors from the output file. `ios-hooker.py` catches `IOError` separately from other exceptions, and only the message differs. The model's output file never fails.
- hooker.py's bare `except:` also catches exceptions that are not errors, such as interrupts. Only the tool's own errors are modelled.
- HeaderModel.ObjcHeader.WriteGetter: writes the getter hook in one `write` rather than the source's several. The resulting text is the same. The same holds for WriteSetter.
- HeaderModel.ObjcHeader.WriteMethodBlock: merges the two writes before the parameters (`str(method) {` and `%log;`, ios-hooker.py:367-368) into one. The `%orig` line and the closing brace are written separately, as in the source. The resulting text is the same.
- HeaderModel.ObjcHeader.WriteParams: writes each parameter's `NSLog` line in one `write`, where the source writes it in two parts (ios-hooker.py:380-382). The resulting text is the same.
- PyStrings.Upper: upper-cases ASCII letters only. Python's `str.upper` also maps other Unicode letters, and may turn a character into several.
- Renderer.Filtered: `regex.match` is an abstract predicate. The anchoring and syntax of Python regular expressions are not modelled.
- Tokenizer.ArgumentsOf: it models the setter on a fresh `ObjcMethod`, as every scan uses it. The setter appends to `_arguments`, so calling it twice on one method would accumulate both lists. The source never does this.
