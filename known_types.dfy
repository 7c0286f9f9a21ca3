/**
 * KNOWN_TYPES of both versions: the names a generated hook may mention without the
 * unknown-type filter dropping it, and what the registry does and does not hold.
 */
module KnownTypeRegistry {
  import opened PyStrings
  import opened ObjcTypes

  /** The C and Objective-C primitive names of the list. */
  const PrimitiveTypes: set<string> := {
    "id", "void", "char", "int", "unsigned", "double", "float", "long", "BOOL"
  }

  /** The Foundation classes of the list (`NSObject` first), each without its `NS` prefix. */
  const FoundationClassStems: set<string> :=
    {
      "Object", "AffineTransform", "AppleEventDescriptor", "AppleEventManager", "AppleScript",
      "Archiver", "Array", "AssertionHandler", "AttributedString", "AutoreleasePool",
      "BlockOperation", "Bundle", "Cache", "CachedURLResponse", "Calendar", "CharacterSet",
      "ClassDescription", "CloneCommand", "CloseCommand", "Coder", "ComparisonPredicate",
      "CompoundPredicate", "Condition", "ConditionLock", "Connection", "CountCommand",
      "CountedSet", "CreateCommand", "Data", "DataDetector", "Date", "DateComponents",
      "DateFormatter", "DecimalNumber", "DecimalNumberHandler", "DeleteCommand", "Dictionary",
      "DirectoryEnumerator", "DistantObject", "DistantObjectRequest", "DistributedLock",
      "DistributedNotificationCenter", "Enumerator", "Error", "Exception", "ExistsCommand",
      "Expression", "FileCoordinator", "FileHandle", "FileManager", "FileVersion", "FileWrapper",
      "Formatter", "GarbageCollector", "GetCommand", "HashTable", "Host", "HTTPCookie",
      "HTTPCookieStorage", "HTTPURLResponse", "IndexPath", "IndexSet", "IndexSpecifier",
      "InputStream", "Invocation", "InvocationOperation", "KeyedArchiver", "KeyedUnarchiver",
      "LinguisticTagger", "Locale", "Lock", "LogicalTest", "MachBootstrapServer", "MachPort",
      "MapTable", "MessagePort", "MessagePortNameServer", "MetadataItem", "MetadataQuery",
      "MetadataQueryAttributeValueTuple", "MetadataQueryResultGroup", "MethodSignature",
      "MiddleSpecifier", "MoveCommand", "MutableArray", "MutableAttributedString",
      "MutableCharacterSet", "MutableData", "MutableDictionary", "MutableIndexSet",
      "MutableOrderedSet", "MutableSet", "MutableString", "MutableURLRequest", "NameSpecifier",
      "NetService", "NetServiceBrowser", "Notification", "NotificationCenter",
      "NotificationQueue", "Null", "Number", "NumberFormatter", "Operation", "OperationQueue",
      "OrderedSet", "Orthography", "OutputStream", "Pipe", "PointerArray", "PointerFunctions",
      "Port", "PortCoder", "PortMessage", "PortNameServer", "PositionalSpecifier", "Predicate",
      "ProcessInfo", "PropertyListSerialization", "PropertySpecifier", "ProtocolChecker", "Proxy",
      "QuitCommand", "RandomSpecifier", "RangeSpecifier", "RecursiveLock", "RegularExpression",
      "RelativeSpecifier", "RunLoop", "Scanner", "ScriptClassDescription",
      "ScriptCoercionHandler", "ScriptCommand", "ScriptCommandDescription",
      "ScriptExecutionContext", "ScriptObjectSpecifier", "ScriptSuiteRegistry", "ScriptWhoseTest",
      "Set", "SetCommand", "SocketPort", "SocketPortNameServer", "SortDescriptor",
      "SpecifierTest", "SpellServer", "Stream", "String", "Task", "TextCheckingResult", "Thread",
      "Timer", "TimeZone", "UbiquitousKeyValueStore", "Unarchiver", "UndoManager",
      "UniqueIDSpecifier", "URL", "URLAuthenticationChallenge", "URLCache", "URLConnection",
      "URLCredential", "URLCredentialStorage", "URLDownload", "URLHandle", "URLProtectionSpace",
      "URLProtocol", "URLRequest", "URLResponse", "UserAppleScriptTask", "UserAutomatorTask",
      "UserDefaults", "UserNotification", "UserNotificationCenter", "UserScriptTask",
      "UserUnixTask", "UUID", "Value", "ValueTransformer", "WhoseSpecifier", "XMLDocument",
      "XMLDTD", "XMLDTDNode", "XMLElement", "XMLNode", "XMLParser", "XPCConnection",
      "XPCInterface", "XPCListener", "XPCListenerEndpoint"
    }

  /** The Foundation protocols of the list, each without its `NS` prefix. */
  const FoundationProtocolStems: set<string> :=
    {
      "Coding", "ComparisonMethods", "ConnectionDelegate", "Copying", "DecimalNumberBehaviors",
      "ErrorRecoveryAttempting", "FastEnumeration", "FileManagerDelegate", "FilePresenter",
      "KeyedArchiverDelegate", "KeyedUnarchiverDelegate", "KeyValueCoding", "KeyValueObserving",
      "Locking", "MachPortDelegate", "MetadataQueryDelegate", "MutableCopying",
      "NetServiceBrowserDelegate", "NetServiceDelegate", "PortDelegate",
      "ScriptingComparisonMethods", "ScriptKeyValueCoding", "ScriptObjectSpecifiers",
      "SecureCoding", "SpellServerDelegate", "StreamDelegate", "URLAuthenticationChallengeSender",
      "URLConnectionDataDelegate", "URLConnectionDelegate", "URLHandleClient",
      "URLProtocolClient", "UserNotificationCenterDelegate", "XMLParserDelegate",
      "XPCListenerDelegate", "XPCProxyCreating"
    }

  /**
   * `name in KNOWN_TYPES` for a version, given the Foundation class and protocol stems: a
   * primitive, `NS` followed by a stem, or for ios-hooker.py also `bool`.
   */
  predicate KnownNameAmong(v: Variant, name: string, classes: set<string>, protocols: set<string>)
  {
    name in PrimitiveTypes
    || (|name| >= 2 && name[0] == 'N' && name[1] == 'S' && (name[2..] in classes || name[2..] in protocols))
    || (v == IosHooker && name == "bool")
  }

  /** The registry of a version over the given stems, as the test `ObjcType.is_known` applies. */
  function Registry(v: Variant, classes: set<string>, protocols: set<string>): string -> bool
  {
    name => KnownNameAmong(v, name, classes, protocols)
  }

  /**
   * KNOWN_TYPES of each version. The lemmas below hold whatever the Foundation stems are, so
   * they hold for these registries in particular.
   */
  function KnownTypes(v: Variant): string -> bool
  {
    Registry(v, FoundationClassStems, FoundationProtocolStems)
  }

  /** Neither `*` nor, in hooker.py, `bool` is a known name: no primitive, and no `NS` name. */
  lemma OutsideRegistry(v: Variant, classes: set<string>, protocols: set<string>)
    ensures !Registry(v, classes, protocols)("*")
    ensures !Registry(Hooker, classes, protocols)("bool")
  {
    assert "*" !in PrimitiveTypes && "bool" !in PrimitiveTypes;
  }

  /** The two registries differ exactly in `bool`, which only ios-hooker.py knows. */
  lemma BoolOnlyInIosHooker(name: string, classes: set<string>, protocols: set<string>)
    ensures Registry(IosHooker, classes, protocols)(name)
            <==> Registry(Hooker, classes, protocols)(name) || name == "bool"
  {
    OutsideRegistry(Hooker, classes, protocols);
  }

  /** As a type, `bool` is known to ios-hooker.py and unknown to hooker.py. */
  lemma BoolTypeKnownOnlyInIosHooker(classes: set<string>, protocols: set<string>)
    ensures IsKnown(ObjcType("bool", false), Registry(IosHooker, classes, protocols))
    ensures !IsKnown(ObjcType("bool", false), Registry(Hooker, classes, protocols))
  {
    OutsideRegistry(Hooker, classes, protocols);
  }

  /** A type spelled with a space before its `*` (`NSString *`) is never known. */
  lemma SpacedPointerNeverKnown(v: Variant, name: string, isPointer: bool,
                                classes: set<string>, protocols: set<string>)
    ensures !IsKnown(ObjcType(name + " *", isPointer), Registry(v, classes, protocols))
  {
    assert name + " *" == name + " " + "*";
    IsKnownMultiWord(name, "*", isPointer, Registry(v, classes, protocols));
    OutsideRegistry(v, classes, protocols);
  }

  /** `unsigned int` is known in both versions, by its last word `int`. */
  lemma UnsignedIntKnown(v: Variant, classes: set<string>, protocols: set<string>)
    ensures IsKnown(ObjcType("unsigned int", false), Registry(v, classes, protocols))
  {
    assert "unsigned int" == "unsigned" + " " + "int";
    assert "int" in PrimitiveTypes;
    IsKnownMultiWord("unsigned", "int", false, Registry(v, classes, protocols));
  }

  /** Every Foundation name of the list is known: `NS` followed by any class or protocol stem. */
  lemma FoundationNamesKnown(v: Variant, stem: string, classes: set<string>, protocols: set<string>)
    requires stem in classes || stem in protocols
    ensures Registry(v, classes, protocols)("NS" + stem)
  {
    assert ("NS" + stem)[2..] == stem;
  }
}
