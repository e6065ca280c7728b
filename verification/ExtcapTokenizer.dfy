/** Sentences that extcap programs print, such as arg {number=0}{call=--delay}{type=integer}, and how
    they are taken apart. The two regular expressions of the tokenizer are written as scanners. */
module ExtcapTokenizer {
  import opened Framing

  // Characters

  predicate IsSeparator(c: char) {
    c == '\t' || c == '|' || c == ' '
  }

  /** What \s matches. */
  predicate IsSpace(c: char) {
    c == ' ' || '\t' <= c <= '\r'
  }

  /** What the dot does not match. */
  predicate IsNewline(c: char) {
    '\n' <= c <= '\r' || c == '\U{85}' || c == '\U{2028}' || c == '\U{2029}'
  }

  /** [a-zA-Z_-]; matching without regard to case also lets in the long s and the Kelvin sign. */
  predicate IsKeyChar(c: char) {
    'a' <= c <= 'z' || 'A' <= c <= 'Z' || c == '_' || c == '-' || c == '\U{17F}' || c == '\U{212A}'
  }

  function LowerChar(c: char): char {
    if 'A' <= c <= 'Z' then ((c as int) + 32) as char else c
  }

  function Lower(s: string): (r: string)
    ensures |r| == |s|
  {
    if s == "" then "" else Lower(s[..|s| - 1]) + [LowerChar(s[|s| - 1])]
  }

  const CAPITALS := "ABCDEFGHIJKLMNOPQRSTUVWXYZ"
  const SMALL_LETTERS := "abcdefghijklmnopqrstuvwxyz"

  lemma SmallLetters(c: char)
    ensures c in SMALL_LETTERS <==> 'a' <= c <= 'z'
  {
    if 'a' <= c <= 'z' {
      assert SMALL_LETTERS[c as int - 'a' as int] == c;
    }
  }

  lemma Capitals(c: char)
    ensures c in CAPITALS <==> 'A' <= c <= 'Z'
  {
    if 'A' <= c <= 'Z' {
      assert CAPITALS[c as int - 'A' as int] == c;
    }
  }

  /** The characters of each kind, one by one. */
  lemma CharacterKinds(c: char)
    ensures IsKeyChar(c) <==> c in SMALL_LETTERS || c in CAPITALS || c in "_-\U{17F}\U{212A}"
    ensures IsSpace(c) <==> c in " \t\n\U{b}\U{c}\r"
    ensures IsNewline(c) <==> c in "\n\U{b}\U{c}\r\U{85}\U{2028}\U{2029}"
  {
    SmallLetters(c);
    Capitals(c);
  }

  /** Each capital becomes the small letter at the same place in the alphabet; nothing else changes. */
  lemma LoweredLetters(c: char, i: nat)
    requires i < 26
    ensures LowerChar(CAPITALS[i]) == SMALL_LETTERS[i] && (c !in CAPITALS ==> LowerChar(c) == c)
  {
    Capitals(c);
  }

  // Parameters: {key=value}

  /** The place after a parameter: the end of the line, a brace or white space. */
  predicate Boundary(s: string, e: nat)
    requires e <= |s|
  {
    e == |s| || s[e] == '{' || IsSpace(s[e]) || (e + 1 == |s| && IsNewline(s[e]))
  }

  /** A parameter from p to e with its equals sign at k, as the pattern describes it. */
  ghost predicate Parameter(s: string, p: nat, k: nat, e: nat) {
    && p < k && k + 1 < e <= |s|
    && s[p] == '{' && (forall i | p < i < k :: IsKeyChar(s[i])) && s[k] == '='
    && (forall i | k < i < e - 1 :: !IsNewline(s[i])) && s[e - 1] == '}' && Boundary(s, e)
  }

  /** The end of the key characters from i on. */
  function KeyEnd(s: string, i: nat): (k: nat)
    requires i <= |s|
    ensures i <= k <= |s| && (forall j | i <= j < k :: IsKeyChar(s[j])) && (k < |s| ==> !IsKeyChar(s[k]))
    decreases |s| - i
  {
    if i < |s| && IsKeyChar(s[i]) then KeyEnd(s, i + 1) else i
  }

  /** The end of the parameter whose value starts at i: after the first closing brace that has a
      boundary after it. */
  function ValueEnd(s: string, i: nat): (e: Option<nat>)
    requires i <= |s|
    ensures e.Some? ==> i < e.value <= |s| && s[e.value - 1] == '}' && Boundary(s, e.value)
                        && (forall j | i <= j < e.value - 1 :: !IsNewline(s[j]))
    decreases |s| - i
  {
    if i == |s| then None
    else if s[i] == '}' && Boundary(s, i + 1) then Some(i + 1)
    else if IsNewline(s[i]) then None
    else ValueEnd(s, i + 1)
  }

  datatype Found = Found(start: nat, equals: nat, end: nat)

  /** The first parameter from i on, as short as can be. */
  function Find(s: string, i: nat): (f: Option<Found>)
    requires i <= |s|
    ensures f.Some? ==> i <= f.value.start && Parameter(s, f.value.start, f.value.equals, f.value.end)
    decreases |s| - i
  {
    if i == |s| then None
    else if s[i] == '{' then
      var k := KeyEnd(s, i + 1);
      if k < |s| && s[k] == '=' then
        match ValueEnd(s, k + 1)
        case Some(e) => Some(Found(i, k, e))
        case None => Find(s, i + 1)
      else Find(s, i + 1)
    else Find(s, i + 1)
  }

  /** No value ends sooner. */
  lemma {:induction false} ValueEndLeast(s: string, i: nat, e: nat)
    requires i < e <= |s| && s[e - 1] == '}' && Boundary(s, e) && forall j | i <= j < e - 1 :: !IsNewline(s[j])
    ensures ValueEnd(s, i).Some? && ValueEnd(s, i).value <= e
    decreases |s| - i
  {
    if s[i] == '}' && Boundary(s, i + 1) {
    } else {
      ValueEndLeast(s, i + 1, e);
    }
  }

  /** The search finds what the pattern matches: the leftmost parameter, and of those that start
      there the shortest. */
  lemma {:induction false} FindLeftmostShortest(s: string, i: nat, p: nat, k: nat, e: nat)
    requires i <= p && Parameter(s, p, k, e)
    ensures Find(s, i).Some?
    ensures var f := Find(s, i).value; f.start < p || (f.start == p && f.equals == k && f.end <= e)
    decreases |s| - i
  {
    if i == p {
      assert !IsKeyChar(s[k]);
      assert KeyEnd(s, i + 1) == k;
      ValueEndLeast(s, k + 1, e);
    } else {
      FindLeftmostShortest(s, i + 1, p, k, e);
    }
  }

  datatype Pair = Pair(key: string, value: string)

  function PairAt(s: string, f: Found): Pair
    requires f.start < f.equals && f.equals + 1 < f.end <= |s|
  {
    Pair(s[f.start + 1..f.equals], s[f.equals + 1..f.end - 1])
  }

  /** All the parameters of a line from i on. */
  function Pairs(s: string, i: nat): seq<Pair>
    requires i <= |s|
    decreases |s| - i
  {
    match Find(s, i)
    case None => []
    case Some(f) => [PairAt(s, f)] + Pairs(s, f.end)
  }

  // The table of parameters

  datatype Param =
    | UnknownParam | ArgNum | Call | Display | Type | Arg | Default | Value | Range | Tooltip | Placeholder
    | Name | Enabled | MustExist | FileExtension | Group | Parent | Required | Reload | Save | Validation
    | Version | Help | Control | Role

  /** The keys that are known, and how they are spelled. */
  const PARAMS: seq<Param> := [
    ArgNum, Call, Display, Type, Arg, Default, Value, Range, Tooltip, Placeholder, MustExist, FileExtension, Group,
    Name, Enabled, Parent, Reload, Required, Save, Validation, Version, Help, Control, Role]

  function KeyOf(p: Param): string {
    match p
    case UnknownParam => ""
    case ArgNum => "number"
    case Call => "call"
    case Display => "display"
    case Type => "type"
    case Arg => "arg"
    case Default => "default"
    case Value => "value"
    case Range => "range"
    case Tooltip => "tooltip"
    case Placeholder => "placeholder"
    case Name => "name"
    case Enabled => "enabled"
    case MustExist => "mustexist"
    case FileExtension => "fileext"
    case Group => "group"
    case Parent => "parent"
    case Required => "required"
    case Reload => "reload"
    case Save => "save"
    case Validation => "validation"
    case Version => "version"
    case Help => "help"
    case Control => "control"
    case Role => "role"
  }

  /** The first of some things that has a name. */
  function Named<K>(name: K -> string, ks: seq<K>, s: string): Option<K>
    decreases |ks|, 1
  {
    if ks == [] then None else FirstNamed(name, ks, s)
  }

  function FirstNamed<K>(name: K -> string, ks: seq<K>, s: string): Option<K>
    requires ks != []
    decreases |ks|, 0
  {
    if name(ks[0]) == s then Some(ks[0]) else Named(name, ks[1..], s)
  }

  lemma {:induction false} NamedAt<K>(name: K -> string, ks: seq<K>, s: string, i: nat)
    requires i < |ks| && name(ks[i]) == s && forall j | 0 <= j < i :: name(ks[j]) != s
    ensures Named(name, ks, s) == Some(ks[i])
    decreases i
  {
    assert Named(name, ks, s) == FirstNamed(name, ks, s);
    if i == 0 {
    } else {
      assert ks[1..][i - 1] == ks[i];
      NamedAt(name, ks[1..], s, i - 1);
    }
  }

  function ParamOf(key: string): Param {
    match Named(KeyOf, PARAMS, Lower(key)) case Some(p) => p case None => UnknownParam
  }

  type Table = map<Param, string>

  /** Pairs entered one after the other, each in the slot that its key has. */
  function Entered<K>(slot: string -> K, pairs: seq<Pair>): map<K, string> {
    if pairs == [] then map[]
    else Entered(slot, pairs[..|pairs| - 1])[slot(pairs[|pairs| - 1].key) := pairs[|pairs| - 1].value]
  }

  function TableOf(pairs: seq<Pair>): Table {
    Entered(ParamOf, pairs)
  }

  lemma EnteredOne<K>(slot: string -> K, pairs: seq<Pair>, pair: Pair)
    ensures Entered(slot, pairs + [pair]) == Entered(slot, pairs)[slot(pair.key) := pair.value]
  {
    assert (pairs + [pair])[..|pairs + [pair]| - 1] == pairs;
  }

  /** Where the value in a slot comes from: the last pair whose key has that slot. */
  ghost predicate LastFor<K>(slot: string -> K, pairs: seq<Pair>, k: K, i: nat) {
    && i < |pairs| && slot(pairs[i].key) == k
    && (forall j | i < j < |pairs| :: slot(pairs[j].key) != k)
  }

  lemma LastForInit<K>(slot: string -> K, pairs: seq<Pair>, k: K, i: nat)
    requires pairs != [] && slot(pairs[|pairs| - 1].key) != k
    ensures LastFor(slot, pairs, k, i) <==> LastFor(slot, pairs[..|pairs| - 1], k, i)
  {
    var before := pairs[..|pairs| - 1];
    if LastFor(slot, before, k, i) {
      assert pairs[i] == before[i];
      assert forall j | i < j < |before| :: pairs[j] == before[j];
    }
    if LastFor(slot, pairs, k, i) {
      assert before[i] == pairs[i];
    }
  }

  /** The last of several pairs with one slot wins; ParamOf gives all unknown keys the same slot. */
  lemma {:induction false} LastPairWins<K>(slot: string -> K, pairs: seq<Pair>, k: K)
    ensures k in Entered(slot, pairs) <==> exists i: nat :: LastFor(slot, pairs, k, i)
    ensures forall i: nat | LastFor(slot, pairs, k, i) :: Entered(slot, pairs)[k] == pairs[i].value
  {
    if pairs == [] {
    } else {
      var n := |pairs| - 1;
      LastPairWins(slot, pairs[..n], k);
      if slot(pairs[n].key) == k {
        assert LastFor(slot, pairs, k, n);
      } else {
        forall i: nat
          ensures LastFor(slot, pairs, k, i) <==> LastFor(slot, pairs[..n], k, i)
        {
          LastForInit(slot, pairs, k, i);
        }
        if k in Entered(slot, pairs) {
          var i: nat :| LastFor(slot, pairs[..n], k, i);
          assert LastFor(slot, pairs, k, i);
        }
      }
    }
  }

  // Keys

  /** The value that a line gives for a key, in upper or lower case: that of the last such parameter. */
  function Given(pairs: seq<Pair>, key: string): Option<string> {
    if pairs == [] then None
    else if Lower(pairs[|pairs| - 1].key) == key then Some(pairs[|pairs| - 1].value)
    else Given(pairs[..|pairs| - 1], key)
  }

  function Get(t: Table, p: Param): Option<string> {
    if p in t then Some(t[p]) else None
  }

  /** A slot of the table is that of a key. */
  ghost predicate SlotOf(key: string, p: Param) {
    forall k: string :: Lower(k) == key <==> ParamOf(k) == p
  }

  lemma {:induction false} GivenInTable(pairs: seq<Pair>, key: string, p: Param)
    requires SlotOf(key, p)
    ensures Get(TableOf(pairs), p) == Given(pairs, key)
  {
    if pairs == [] {
    } else {
      GivenInTable(pairs[..|pairs| - 1], key, p);
      var k := pairs[|pairs| - 1].key;
      assert Lower(k) == key <==> ParamOf(k) == p;
    }
  }

  lemma {:induction false} NamedSound<K>(name: K -> string, ks: seq<K>, s: string)
    ensures Named(name, ks, s).Some? ==> Named(name, ks, s).value in ks && name(Named(name, ks, s).value) == s
    decreases |ks|
  {
    if ks == [] {
    } else {
      assert Named(name, ks, s) == FirstNamed(name, ks, s);
      NamedSound(name, ks[1..], s);
    }
  }

  lemma SlotOfKey(p: Param, i: nat)
    requires i < |PARAMS| && PARAMS[i] == p && p != UnknownParam
    requires forall j | 0 <= j < i :: KeyOf(PARAMS[j]) != KeyOf(p)
    ensures SlotOf(KeyOf(p), p)
  {
    forall k: string
      ensures Lower(k) == KeyOf(p) <==> ParamOf(k) == p
    {
      if Lower(k) == KeyOf(p) {
        NamedAt(KeyOf, PARAMS, Lower(k), i);
      }
      NamedSound(KeyOf, PARAMS, Lower(k));
    }
  }

  lemma ArgNumSlot()
    ensures SlotOf("number", ArgNum)
  {
    SlotOfKey(ArgNum, 0);
  }

  lemma CallSlot()
    ensures SlotOf("call", Call)
  {
    SlotOfKey(Call, 1);
  }

  lemma DisplaySlot()
    ensures SlotOf("display", Display)
  {
    SlotOfKey(Display, 2);
  }

  lemma TypeSlot()
    ensures SlotOf("type", Type)
  {
    SlotOfKey(Type, 3);
  }

  lemma ArgSlot()
    ensures SlotOf("arg", Arg)
  {
    SlotOfKey(Arg, 4);
  }

  lemma DefaultSlot()
    ensures SlotOf("default", Default)
  {
    SlotOfKey(Default, 5);
  }

  lemma ValueSlot()
    ensures SlotOf("value", Value)
  {
    SlotOfKey(Value, 6);
  }

  lemma RangeSlot()
    ensures SlotOf("range", Range)
  {
    SlotOfKey(Range, 7);
  }

  lemma TooltipSlot()
    ensures SlotOf("tooltip", Tooltip)
  {
    SlotOfKey(Tooltip, 8);
  }

  lemma PlaceholderSlot()
    ensures SlotOf("placeholder", Placeholder)
  {
    SlotOfKey(Placeholder, 9);
  }

  lemma MustExistSlot()
    ensures SlotOf("mustexist", MustExist)
  {
    SlotOfKey(MustExist, 10);
  }

  lemma FileExtensionSlot()
    ensures SlotOf("fileext", FileExtension)
  {
    SlotOfKey(FileExtension, 11);
  }

  lemma GroupSlot()
    ensures SlotOf("group", Group)
  {
    SlotOfKey(Group, 12);
  }

  lemma NameSlot()
    ensures SlotOf("name", Name)
  {
    SlotOfKey(Name, 13);
  }

  lemma EnabledSlot()
    ensures SlotOf("enabled", Enabled)
  {
    SlotOfKey(Enabled, 14);
  }

  lemma ParentSlot()
    ensures SlotOf("parent", Parent)
  {
    SlotOfKey(Parent, 15);
  }

  lemma ReloadSlot()
    ensures SlotOf("reload", Reload)
  {
    SlotOfKey(Reload, 16);
  }

  lemma RequiredSlot()
    ensures SlotOf("required", Required)
  {
    SlotOfKey(Required, 17);
  }

  lemma SaveSlot()
    ensures SlotOf("save", Save)
  {
    SlotOfKey(Save, 18);
  }

  lemma ValidationSlot()
    ensures SlotOf("validation", Validation)
  {
    SlotOfKey(Validation, 19);
  }

  lemma VersionSlot()
    ensures SlotOf("version", Version)
  {
    SlotOfKey(Version, 20);
  }

  lemma HelpSlot()
    ensures SlotOf("help", Help)
  {
    SlotOfKey(Help, 21);
  }

  lemma ControlSlot()
    ensures SlotOf("control", Control)
  {
    SlotOfKey(Control, 22);
  }

  lemma RoleSlot()
    ensures SlotOf("role", Role)
  {
    SlotOfKey(Role, 23);
  }

  /** What the table of a line has in each slot: what the line gives for the slot's key. */
  lemma TableGives(pairs: seq<Pair>)
    ensures var t := TableOf(pairs);
            && Get(t, ArgNum) == Given(pairs, "number")
            && Get(t, Call) == Given(pairs, "call")
            && Get(t, Display) == Given(pairs, "display")
            && Get(t, Type) == Given(pairs, "type")
            && Get(t, Arg) == Given(pairs, "arg")
            && Get(t, Default) == Given(pairs, "default")
            && Get(t, Value) == Given(pairs, "value")
            && Get(t, Range) == Given(pairs, "range")
            && Get(t, Tooltip) == Given(pairs, "tooltip")
            && Get(t, Placeholder) == Given(pairs, "placeholder")
            && Get(t, MustExist) == Given(pairs, "mustexist")
            && Get(t, FileExtension) == Given(pairs, "fileext")
            && Get(t, Group) == Given(pairs, "group")
            && Get(t, Name) == Given(pairs, "name")
            && Get(t, Enabled) == Given(pairs, "enabled")
            && Get(t, Parent) == Given(pairs, "parent")
            && Get(t, Reload) == Given(pairs, "reload")
            && Get(t, Required) == Given(pairs, "required")
            && Get(t, Save) == Given(pairs, "save")
            && Get(t, Validation) == Given(pairs, "validation")
            && Get(t, Version) == Given(pairs, "version")
            && Get(t, Help) == Given(pairs, "help")
            && Get(t, Control) == Given(pairs, "control")
            && Get(t, Role) == Given(pairs, "role")
  {
    ArgNumSlot(); GivenInTable(pairs, "number", ArgNum);
    CallSlot(); GivenInTable(pairs, "call", Call);
    DisplaySlot(); GivenInTable(pairs, "display", Display);
    TypeSlot(); GivenInTable(pairs, "type", Type);
    ArgSlot(); GivenInTable(pairs, "arg", Arg);
    DefaultSlot(); GivenInTable(pairs, "default", Default);
    ValueSlot(); GivenInTable(pairs, "value", Value);
    RangeSlot(); GivenInTable(pairs, "range", Range);
    TooltipSlot(); GivenInTable(pairs, "tooltip", Tooltip);
    PlaceholderSlot(); GivenInTable(pairs, "placeholder", Placeholder);
    MustExistSlot(); GivenInTable(pairs, "mustexist", MustExist);
    FileExtensionSlot(); GivenInTable(pairs, "fileext", FileExtension);
    GroupSlot(); GivenInTable(pairs, "group", Group);
    NameSlot(); GivenInTable(pairs, "name", Name);
    EnabledSlot(); GivenInTable(pairs, "enabled", Enabled);
    ParentSlot(); GivenInTable(pairs, "parent", Parent);
    ReloadSlot(); GivenInTable(pairs, "reload", Reload);
    RequiredSlot(); GivenInTable(pairs, "required", Required);
    SaveSlot(); GivenInTable(pairs, "save", Save);
    ValidationSlot(); GivenInTable(pairs, "validation", Validation);
    VersionSlot(); GivenInTable(pairs, "version", Version);
    HelpSlot(); GivenInTable(pairs, "help", Help);
    ControlSlot(); GivenInTable(pairs, "control", Control);
    RoleSlot(); GivenInTable(pairs, "role", Role);
  }

  // Sentences

  datatype Keyword = ArgWord | ValueWord | InterfaceWord | ExtcapWord | DltWord | ControlWord

  const KEYWORDS: seq<Keyword> := [ArgWord, ValueWord, InterfaceWord, ExtcapWord, DltWord, ControlWord]

  function Word(k: Keyword): string {
    match k
    case ArgWord => "arg"
    case ValueWord => "value"
    case InterfaceWord => "interface"
    case ExtcapWord => "extcap"
    case DltWord => "dlt"
    case ControlWord => "control"
  }

  function SkipSeparators(s: string, i: nat): (j: nat)
    requires i <= |s|
    ensures i <= j <= |s| && (forall k | i <= k < j :: IsSeparator(s[k])) && (j < |s| ==> !IsSeparator(s[j]))
    decreases |s| - i
  {
    if i < |s| && IsSeparator(s[i]) then SkipSeparators(s, i + 1) else i
  }

  /** The end of the first of some words that starts at i, if one does. */
  function WordEnd<K>(word: K -> string, ks: seq<K>, s: string, i: nat): (e: Option<nat>)
    requires i <= |s|
    ensures e.Some? ==> i <= e.value <= |s|
    decreases |ks|, 1
  {
    if ks == [] then None else FirstWordEnd(word, ks, s, i)
  }

  function FirstWordEnd<K>(word: K -> string, ks: seq<K>, s: string, i: nat): (e: Option<nat>)
    requires i <= |s| && ks != []
    ensures e.Some? ==> i <= e.value <= |s|
    decreases |ks|, 0
  {
    var e := i + |word(ks[0])|;
    if e <= |s| && Lower(s[i..e]) == word(ks[0]) then Some(e) else WordEnd(word, ks[1..], s, i)
  }

  /** What kind of sentence a line is: a keyword, with any separators before it, that is followed by
      separators and a brace. The separators before it become part of the sentence's name. */
  function SentenceName(s: string): Option<string> {
    match WordEnd(Word, KEYWORDS, s, SkipSeparators(s, 0))
    case None => None
    case Some(e) =>
      var b := SkipSeparators(s, e);
      if e < b < |s| && s[b] == '{' then Some(s[..e]) else None
  }

  datatype Sentence = Sentence(name: string, params: Table)

  function Tokenized(line: string): Option<Sentence> {
    match SentenceName(line)
    case None => None
    case Some(name) => Some(Sentence(name, TableOf(Pairs(line, 0))))
  }

  /** Take a line apart. */
  method TokenizeSentence(line: string) returns (rs: Option<Sentence>)
    ensures rs == Tokenized(line)
  {
    var name := SentenceName(line);
    if name.None? {
      return None;
    }
    var params := ReadParams(line);
    return Some(Sentence(name.value, params));
  }

  /** Enter each parameter of a line in a table. */
  method ReadParams(line: string) returns (params: Table)
    ensures params == TableOf(Pairs(line, 0))
  {
    params := map[];
    ghost var read: seq<Pair> := [];
    ghost var at := 0;
    var found := Find(line, 0);
    assert [] + Pairs(line, 0) == Pairs(line, 0);
    while found.Some?
      invariant at <= |line| && found == Find(line, at)
      invariant params == TableOf(read) && read + Pairs(line, at) == Pairs(line, 0)
      decreases |line| - at
    {
      var pair := PairAt(line, found.value);
      EnteredOne(ParamOf, read, pair);
      Associate(read, [pair], Pairs(line, found.value.end));
      params := params[ParamOf(pair.key) := pair.value];
      read := read + [pair];
      at := found.value.end;
      found := Find(line, found.value.end);
    }
    assert read + [] == read;
  }

  /** The lines of a text; a text without characters has none. */
  function Lines(s: string): seq<string> {
    if s == "" then [] else SplitLines(s)
  }

  function SplitLines(s: string): (r: seq<string>)
    ensures r != []
  {
    if s == "" then [""]
    else
      var before := SplitLines(s[..|s| - 1]);
      if s[|s| - 1] == '\n' then before + [""]
      else before[..|before| - 1] + [before[|before| - 1] + [s[|s| - 1]]]
  }

  function Joined(lines: seq<string>): string {
    if lines == [] then ""
    else if |lines| == 1 then lines[0]
    else Joined(lines[..|lines| - 1]) + "\n" + lines[|lines| - 1]
  }

  lemma {:induction false} SplitJoined(s: string)
    ensures Joined(SplitLines(s)) == s && forall i | 0 <= i < |SplitLines(s)| :: '\n' !in SplitLines(s)[i]
  {
    if s == "" {
    } else {
      var n := |s| - 1;
      SplitJoined(s[..n]);
      var before := SplitLines(s[..n]);
      var k := |before| - 1;
      if s[n] == '\n' {
        assert (before + [""])[..k + 1] == before;
      } else {
        var last := before[k] + [s[n]];
        assert (before[..k] + [last])[..k] == before[..k];
        assert k > 0 ==> Joined(before[..k]) + "\n" + last == Joined(before) + [s[n]];
      }
      assert s == s[..n] + [s[n]];
    }
  }

  /** The lines of a text have no line feeds, and with line feeds between them they are the text. */
  lemma LinesJoined(s: string)
    ensures Joined(Lines(s)) == s && forall i | 0 <= i < |Lines(s)| :: '\n' !in Lines(s)[i]
  {
    SplitJoined(s);
  }

  function TokenizedLines(lines: seq<string>): seq<Sentence> {
    if lines == [] then []
    else
      var before := TokenizedLines(lines[..|lines| - 1]);
      match Tokenized(lines[|lines| - 1])
      case Some(sentence) => before + [sentence]
      case None => before
  }

  function Sentences(line: string): seq<Sentence> {
    match Tokenized(line) case Some(sentence) => [sentence] case None => []
  }

  lemma SentencesOneMore(lines: seq<string>, line: string)
    ensures TokenizedLines(lines + [line]) == TokenizedLines(lines) + Sentences(line)
  {
    assert (lines + [line])[..|lines + [line]| - 1] == lines;
  }

  /** Each line that is a sentence gives one, whatever the other lines are, in the order of the lines. */
  lemma {:induction false} SentencesOfParts(a: seq<string>, b: seq<string>)
    ensures TokenizedLines(a + b) == TokenizedLines(a) + TokenizedLines(b)
  {
    if b == [] {
      assert a + b == a && TokenizedLines(a) + [] == TokenizedLines(a);
    } else {
      var n := |b| - 1;
      SentencesOfParts(a, b[..n]);
      Associate(a, b[..n], [b[n]]);
      assert b[..n] + [b[n]] == b;
      SentencesOneMore(a + b[..n], b[n]);
      SentencesOneMore(b[..n], b[n]);
      Associate(TokenizedLines(a), TokenizedLines(b[..n]), Sentences(b[n]));
    }
  }

  method TokenizeSentences(s: string) returns (sentences: seq<Sentence>)
    ensures sentences == TokenizedLines(Lines(s))
  {
    var list := Lines(s);
    sentences := [];
    var i := 0;
    while i < |list|
      invariant i <= |list| && sentences == TokenizedLines(list[..i])
    {
      var item := TokenizeSentence(list[i]);
      if item.Some? {
        sentences := sentences + [item.value];
      }
      assert list[..i + 1][..i] == list[..i];
      i := i + 1;
    }
    assert list[..i] == list;
  }

  // Round trip

  function PrintPair(p: Pair): string {
    "{" + p.key + "=" + p.value + "}"
  }

  function PrintPairs(pairs: seq<Pair>): string {
    if pairs == [] then "" else PrintPair(pairs[0]) + PrintPairs(pairs[1..])
  }

  predicate OneLine(value: string) {
    forall i | 0 <= i < |value| :: !IsNewline(value[i])
  }

  /** The value is on one line, and no closing brace in it is followed by an opening one or by white
      space. */
  ghost predicate Clean(value: string) {
    && OneLine(value)
    && (forall i | 0 <= i < |value| - 1 && value[i] == '}' :: value[i + 1] != '{' && !IsSpace(value[i + 1]))
  }

  predicate IsKey(key: string) {
    forall i | 0 <= i < |key| :: IsKeyChar(key[i])
  }

  /** In a line that goes on with a printed pair, and then with a brace or nothing, the pair is found
      as it was printed. */
  lemma PrintedPairFound(s: string, p: nat, k: nat, e: nat)
    requires p < k && k + 1 < e <= |s| && s[p] == '{' && s[k] == '=' && s[e - 1] == '}' && (e == |s| || s[e] == '{')
    requires IsKey(s[p + 1..k]) && Clean(s[k + 1..e - 1])
    ensures Find(s, p) == Some(Found(p, k, e))
  {
    var key, value := s[p + 1..k], s[k + 1..e - 1];
    assert forall j | p + 1 <= j < k :: s[j] == key[j - p - 1];
    KeyEndAt(s, p + 1, k);
    forall j | k + 1 <= j < e - 1
      ensures !IsNewline(s[j]) && (s[j] == '}' ==> !Boundary(s, j + 1))
    {
      assert s[j] == value[j - k - 1];
      if j + 1 < e - 1 {
        assert s[j + 1] == value[j - k];
      }
    }
    ValueEndAt(s, k + 1, e);
  }

  lemma {:induction false} KeyEndAt(s: string, i: nat, k: nat)
    requires i <= k < |s| && (forall j | i <= j < k :: IsKeyChar(s[j])) && !IsKeyChar(s[k])
    ensures KeyEnd(s, i) == k
    decreases k - i
  {
    if i == k {
    } else {
      KeyEndAt(s, i + 1, k);
    }
  }

  /** The value ends at e if no brace before that is followed by a boundary. */
  lemma {:induction false} ValueEndAt(s: string, i: nat, e: nat)
    requires i < e <= |s| && s[e - 1] == '}' && Boundary(s, e)
    requires forall j | i <= j < e - 1 :: !IsNewline(s[j]) && (s[j] == '}' ==> !Boundary(s, j + 1))
    ensures ValueEnd(s, i) == Some(e)
    decreases e - i
  {
    if i == e - 1 {
    } else {
      ValueEndAt(s, i + 1, e);
    }
  }

  function EndOf(p: nat, pair: Pair): nat {
    p + |pair.key| + |pair.value| + 3
  }

  /** A printed pair stands in s at p, and a brace or nothing comes after it. */
  ghost predicate Stands(s: string, p: nat, pair: Pair) {
    var k, e := p + 1 + |pair.key|, EndOf(p, pair);
    && e <= |s| && s[p] == '{' && s[k] == '=' && s[e - 1] == '}'
    && s[p + 1..k] == pair.key && s[k + 1..e - 1] == pair.value
    && (e == |s| || s[e] == '{')
  }

  lemma PrintedStart(pairs: seq<Pair>)
    ensures PrintPairs(pairs) != "" ==> PrintPairs(pairs)[0] == '{'
  {
  }

  lemma PrintedNotEmpty(pairs: seq<Pair>)
    requires pairs != []
    ensures PrintPairs(pairs) != "" && PrintPairs(pairs)[0] == '{'
  {
  }

  lemma PartOfTail(s: string, p: nat, i: nat, j: nat)
    requires p <= |s| && i <= j <= |s| - p
    ensures s[p..][i..j] == s[p + i..p + j] && s[p..][j..] == s[p + j..]
  {
  }

  /** Where the parts of a printed pair are. */
  lemma Layout(key: string, value: string, rest: string)
    ensures var t := "{" + key + "=" + value + "}" + rest; var k := 1 + |key|; var e := k + |value| + 2;
            && |t| == e + |rest| && t[0] == '{' && t[k] == '=' && t[e - 1] == '}'
            && t[1..k] == key && t[k + 1..e - 1] == value && t[e..] == rest
  {
    var t, a, b := "{" + key + "=" + value + "}" + rest, "{" + key + "=", value + "}";
    assert t == a + (b + rest);
    assert (b + rest)[..|value|] == value && (b + rest)[|b|..] == rest;
    assert t[|a|..] == b + rest && a[1..|a| - 1] == key;
    assert t[1..|a| - 1] == a[1..|a| - 1];
    PartOfTail(t, |a|, 0, |value|);
  }

  /** The first of several printed pairs stands where they begin. */
  lemma FirstStands(s: string, p: nat, pairs: seq<Pair>)
    requires p <= |s| && s[p..] == PrintPairs(pairs) && pairs != []
    ensures Stands(s, p, pairs[0]) && s[EndOf(p, pairs[0])..] == PrintPairs(pairs[1..])
  {
    var pair, rest, t := pairs[0], PrintPairs(pairs[1..]), s[p..];
    var k, e := 1 + |pair.key|, EndOf(0, pair);
    assert t == "{" + pair.key + "=" + pair.value + "}" + rest;
    Layout(pair.key, pair.value, rest);
    assert s[p] == t[0] && s[p + k] == t[k] && s[p + e - 1] == t[e - 1];
    PartOfTail(s, p, 1, k);
    PartOfTail(s, p, k + 1, e - 1);
    PartOfTail(s, p, e, e);
    PrintedStart(pairs[1..]);
    assert rest != "" ==> s[p + e] == rest[0];
  }

  /** A clean pair is found where it stands. */
  lemma StandingPairFound(s: string, p: nat, pair: Pair)
    requires Stands(s, p, pair) && IsKey(pair.key) && Clean(pair.value)
    ensures Pairs(s, p) == [pair] + Pairs(s, EndOf(p, pair))
  {
    var k, e := p + 1 + |pair.key|, EndOf(p, pair);
    PrintedPairFound(s, p, k, e);
    assert PairAt(s, Found(p, k, e)) == pair;
  }

  /** Printed pairs are read back, if every value is clean. */
  lemma {:induction false} PrintedPairsRead(s: string, p: nat, pairs: seq<Pair>)
    requires p <= |s| && s[p..] == PrintPairs(pairs)
    requires forall i | 0 <= i < |pairs| :: IsKey(pairs[i].key) && Clean(pairs[i].value)
    ensures Pairs(s, p) == pairs
    decreases |pairs|
  {
    if pairs == [] {
      assert |s[p..]| == 0;
    } else {
      FirstStands(s, p, pairs);
      StandingPairFound(s, p, pairs[0]);
      PrintedPairsRead(s, EndOf(p, pairs[0]), pairs[1..]);
      assert pairs == [pairs[0]] + pairs[1..];
    }
  }

  // Values that are not clean

  lemma UncleanAt(value: string) returns (i: nat)
    requires !Clean(value) && OneLine(value)
    ensures i + 1 < |value| && value[i] == '}' && (value[i + 1] == '{' || IsSpace(value[i + 1]))
  {
    i :| i + 1 < |value| && value[i] == '}' && (value[i + 1] == '{' || IsSpace(value[i + 1]));
  }

  /** A value that is not clean is not read back whole: a brace inside it ends it, or it has a line
      break that no value has. */
  lemma UncleanPairMisread(s: string, p: nat, pair: Pair)
    requires Stands(s, p, pair) && IsKey(pair.key) && !Clean(pair.value)
    ensures Find(s, p).Some? ==> PairAt(s, Find(s, p).value) != pair
  {
    if OneLine(pair.value) {
      var i := UncleanAt(pair.value);
      FirstCloses(s, p, p + 1 + |pair.key|, pair.value, i);
    } else if Find(s, p).Some? {
      NoBreaks(s, Find(s, p).value);
    }
  }

  lemma NoBreaks(s: string, f: Found)
    requires Parameter(s, f.start, f.equals, f.end)
    ensures OneLine(PairAt(s, f).value)
  {
  }

  lemma FirstCloses(s: string, p: nat, k: nat, value: string, i: nat)
    requires p < k && k + 1 + |value| <= |s| && s[p] == '{' && s[k] == '=' && s[k + 1..k + 1 + |value|] == value
    requires i + 1 < |value| && value[i] == '}' && (value[i + 1] == '{' || IsSpace(value[i + 1]))
    requires IsKey(s[p + 1..k]) && OneLine(value)
    ensures Find(s, p).Some? && |PairAt(s, Find(s, p).value).value| < |value|
  {
    var e := k + 2 + i;
    assert forall j | p + 1 <= j < k :: s[j] == s[p + 1..k][j - p - 1];
    assert forall j | k < j <= e :: s[j] == value[j - k - 1];
    assert Parameter(s, p, k, e);
    FindLeftmostShortest(s, p, p, k, e);
  }

  lemma DropFirst(pair: Pair, rest: seq<Pair>)
    ensures ([pair] + rest)[1..] == rest
  {
  }

  lemma {:induction false} UncleanPairsMisread(s: string, p: nat, pairs: seq<Pair>, i: nat)
    requires p <= |s| && s[p..] == PrintPairs(pairs)
    requires i < |pairs| && forall j | 0 <= j < |pairs| :: IsKey(pairs[j].key)
    requires forall j | 0 <= j < i :: Clean(pairs[j].value)
    requires !Clean(pairs[i].value)
    ensures Pairs(s, p) != pairs
    decreases i
  {
    FirstStands(s, p, pairs);
    if i == 0 {
      UncleanPairMisread(s, p, pairs[0]);
    } else {
      StandingPairFound(s, p, pairs[0]);
      UncleanPairsMisread(s, EndOf(p, pairs[0]), pairs[1..], i - 1);
      DropFirst(pairs[0], Pairs(s, EndOf(p, pairs[0])));
    }
  }

  lemma {:induction false} FirstUnclean(pairs: seq<Pair>) returns (i: nat)
    requires exists j :: 0 <= j < |pairs| && !Clean(pairs[j].value)
    ensures i < |pairs| && !Clean(pairs[i].value) && forall j | 0 <= j < i :: Clean(pairs[j].value)
  {
    i := 0;
    while Clean(pairs[i].value)
      invariant i < |pairs| && forall j | 0 <= j < i :: Clean(pairs[j].value)
      decreases |pairs| - i
    {
      i := i + 1;
    }
  }

  /** Printing a sentence's parameters and tokenizing the line gives them back if and only if every
      value is clean: no closing brace in it is followed by an opening one or white space, and it
      has no line break. */
  lemma RoundTripIff(s: string, p: nat, pairs: seq<Pair>)
    requires p <= |s| && s[p..] == PrintPairs(pairs)
    requires forall i | 0 <= i < |pairs| :: IsKey(pairs[i].key)
    ensures Pairs(s, p) == pairs <==> forall i | 0 <= i < |pairs| :: Clean(pairs[i].value)
  {
    if forall i | 0 <= i < |pairs| :: Clean(pairs[i].value) {
      PrintedPairsRead(s, p, pairs);
    } else {
      var i := FirstUnclean(pairs);
      UncleanPairsMisread(s, p, pairs, i);
    }
  }

  // A printed sentence

  lemma {:induction false} FindPastNoBrace(s: string, i: nat, p: nat)
    requires i <= p <= |s| && forall j | i <= j < p :: s[j] != '{'
    ensures Find(s, i) == Find(s, p)
    decreases p - i
  {
    if i == p {
    } else {
      FindPastNoBrace(s, i + 1, p);
    }
  }

  lemma NothingBeforeBrace(s: string, i: nat, p: nat)
    requires i <= p <= |s| && forall j | i <= j < p :: s[j] != '{'
    ensures Pairs(s, i) == Pairs(s, p)
  {
    FindPastNoBrace(s, i, p);
  }

  /** What an extcap program prints for a sentence. */
  function PrintSentence(name: string, pairs: seq<Pair>): string {
    name + " " + PrintPairs(pairs)
  }

  lemma {:induction false} LowerAt(s: string, i: nat)
    requires i < |s|
    ensures Lower(s)[i] == LowerChar(s[i])
  {
    if i == |s| - 1 {
    } else {
      LowerAt(s[..|s| - 1], i);
    }
  }

  predicate IsLowerWord(w: string) {
    w != "" && forall i | 0 <= i < |w| :: 'a' <= w[i] <= 'z'
  }

  lemma LowerWordStays(w: string)
    requires IsLowerWord(w)
    ensures Lower(w) == w
  {
    forall i | 0 <= i < |w|
      ensures Lower(w)[i] == w[i]
    {
      LowerAt(w, i);
    }
  }

  lemma WordsAreLower(k: Keyword)
    ensures IsLowerWord(Word(k))
  {
  }

  lemma FirstLettersDiffer(j: Keyword, k: Keyword)
    ensures Word(j) != "" && Word(k) != "" && (Word(j)[0] == Word(k)[0] ==> j == k)
  {
  }

  lemma KeywordFound(s: string, i: nat, k: Keyword)
    requires i + |Word(k)| <= |s| && s[i..i + |Word(k)|] == Word(k)
    ensures WordEnd(Word, KEYWORDS, s, i) == Some(i + |Word(k)|)
  {
    WordsAreLower(k);
    LowerWordStays(Word(k));
    WordsAreKeywords(k);
    KeywordFoundInAnyCase(s, i, i + |Word(k)|);
  }

  predicate AllSeparators(s: string) {
    forall i | 0 <= i < |s| :: IsSeparator(s[i])
  }

  lemma {:induction false} SkippedTo(s: string, i: nat, j: nat)
    requires i <= j < |s| && (forall k | i <= k < j :: IsSeparator(s[k])) && !IsSeparator(s[j])
    ensures SkipSeparators(s, i) == j
    decreases j - i
  {
    if i == j {
    } else {
      SkippedTo(s, i + 1, j);
    }
  }

  /** Where the parts of a sentence are. */
  lemma SentenceLayout(before: string, name: string, text: string)
    requires name != "" && text != ""
    ensures var s := before + (name + " " + text); var p := |before|; var e := p + |name|;
            && |s| == e + 1 + |text| && s[p] == name[0] && s[e] == ' ' && s[e + 1] == text[0]
            && s[..e] == before + name && s[p..e] == name && s[e + 1..] == text && s[..p] == before
  {
  }

  lemma NameFound(s: string, p: nat, e: nat, k: Keyword)
    requires p < e && e + 1 < |s| && AllSeparators(s[..p]) && s[p..e] == Word(k) && s[e] == ' ' && s[e + 1] == '{'
    ensures SentenceName(s) == Some(s[..e])
  {
    WordStarts(s, p, e, k);
    assert forall i | 0 <= i < p :: s[i] == s[..p][i];
    SkippedTo(s, 0, p);
    SkippedTo(s, e, e + 1);
    KeywordFound(s, p, k);
    NameAt(s, p, e);
  }

  lemma WordStarts(s: string, p: nat, e: nat, k: Keyword)
    requires p < e <= |s| && s[p..e] == Word(k)
    ensures !IsSeparator(s[p])
  {
    WordsAreLower(k);
    assert s[p] == s[p..e][0];
  }

  lemma NameAt(s: string, p: nat, e: nat)
    requires p <= e && e + 1 < |s| && s[e + 1] == '{' && WordEnd(Word, KEYWORDS, s, p) == Some(e)
    requires SkipSeparators(s, 0) == p && SkipSeparators(s, e) == e + 1
    ensures SentenceName(s) == Some(s[..e])
  {
  }

  /** The name of a printed sentence is its keyword, with the separators before it. */
  lemma KeywordPrinted(s: string, before: string, k: Keyword, name: string, text: string)
    requires s == before + (name + " " + text) && AllSeparators(before) && name == Word(k) && name != ""
    requires text != "" && text[0] == '{'
    ensures SentenceName(s) == Some(before + name)
  {
    var p, e := |before|, |before| + |name|;
    SentenceLayout(before, name, text);
    assert s[..p] == before && s[p..e] == name && s[..e] == before + name;
    NameFound(s, p, e, k);
  }

  lemma NoBraces(before: string, name: string)
    requires AllSeparators(before) && IsLowerWord(name)
    ensures forall j | 0 <= j < |before + name| :: (before + name)[j] != '{'
  {
  }

  /** The parameters of a sentence begin after its name and a blank. */
  lemma ParamsAfterName(s: string, name: string)
    requires |name| < |s| && s[..|name|] == name && s[|name|] == ' ' && forall j | 0 <= j < |name| :: name[j] != '{'
    ensures Pairs(s, 0) == Pairs(s, |name| + 1)
  {
    forall j | 0 <= j < |name| + 1
      ensures s[j] != '{'
    {
      if j < |name| {
        assert s[j] == name[j];
      }
    }
    NothingBeforeBrace(s, 0, |name| + 1);
  }

  lemma SentenceParamsRead(before: string, name: string, pairs: seq<Pair>)
    requires AllSeparators(before) && IsLowerWord(name) && pairs != []
    requires forall i | 0 <= i < |pairs| :: IsKey(pairs[i].key) && Clean(pairs[i].value)
    ensures Pairs(before + (name + " " + PrintPairs(pairs)), 0) == pairs
  {
    var text := PrintPairs(pairs);
    var s, e := before + (name + " " + text), |before + name|;
    PrintedNotEmpty(pairs);
    NoBraces(before, name);
    SentenceLayout(before, name, text);
    ParamsAfterName(s, before + name);
    PrintedPairsRead(s, e + 1, pairs);
  }

  /** A sentence with a known keyword and clean parameters is read back as it was printed; separators
      before it become part of its name. */
  lemma SentenceRoundTrip(before: string, k: Keyword, pairs: seq<Pair>)
    requires AllSeparators(before) && pairs != []
    requires forall i | 0 <= i < |pairs| :: IsKey(pairs[i].key) && Clean(pairs[i].value)
    ensures Tokenized(before + PrintSentence(Word(k), pairs)) == Some(Sentence(before + Word(k), TableOf(pairs)))
  {
    PrintedNotEmpty(pairs);
    WordsAreLower(k);
    KeywordPrinted(before + PrintSentence(Word(k), pairs), before, k, Word(k), PrintPairs(pairs));
    SentenceParamsRead(before, Word(k), pairs);
  }

  // Which lines are sentences

  /** A keyword in upper or lower case from p to e, with nothing but tabs, bars and blanks before it,
      and at least one of them and a brace after it. */
  predicate StartsSentence(line: string, p: nat, e: nat, b: nat) {
    && p <= e < b < |line|
    && (forall i | 0 <= i < p :: line[i] in "\t| ") && (forall i | e <= i < b :: line[i] in "\t| ") && line[b] == '{'
    && IsKeyword(Lower(line[p..e]))
  }

  predicate IsKeyword(word: string) {
    || word == "arg" || word == "value" || word == "interface" || word == "extcap" || word == "dlt" || word == "control"
  }

  lemma KeywordsAre(word: string) returns (k: Keyword)
    requires IsKeyword(word)
    ensures Word(k) == word
  {
    k := if word == "arg" then ArgWord else if word == "value" then ValueWord else if word == "interface" then InterfaceWord
         else if word == "extcap" then ExtcapWord else if word == "dlt" then DltWord else ControlWord;
  }

  lemma SeparatorsAre(c: char)
    ensures IsSeparator(c) <==> c in "\t| "
  {
  }

  lemma {:induction false} WordFoundInAnyCase<K>(word: K -> string, ks: seq<K>, s: string, i: nat, k: K)
    requires k in ks && word(k) != "" && i + |word(k)| <= |s| && Lower(s[i..i + |word(k)|]) == word(k)
    requires forall j | j in ks :: word(j) != "" && (word(j)[0] == word(k)[0] ==> j == k)
    ensures WordEnd(word, ks, s, i) == Some(i + |word(k)|)
    decreases |ks|
  {
    var w := ks[0];
    assert WordEnd(word, ks, s, i) == FirstWordEnd(word, ks, s, i);
    if w != k {
      LowerAt(s[i..i + |word(k)|], 0);
      if i + |word(w)| <= |s| {
        LowerAt(s[i..i + |word(w)|], 0);
      }
      WordFoundInAnyCase(word, ks[1..], s, i, k);
    }
  }

  lemma {:induction false} WordEndSound<K>(word: K -> string, ks: seq<K>, s: string, i: nat) returns (k: K)
    requires i <= |s| && WordEnd(word, ks, s, i).Some?
    ensures k in ks && Lower(s[i..WordEnd(word, ks, s, i).value]) == word(k)
    decreases |ks|
  {
    assert WordEnd(word, ks, s, i) == FirstWordEnd(word, ks, s, i);
    var e := i + |word(ks[0])|;
    if e <= |s| && Lower(s[i..e]) == word(ks[0]) {
      k := ks[0];
    } else {
      k := WordEndSound(word, ks[1..], s, i);
    }
  }

  lemma KeywordFoundInAnyCase(s: string, p: nat, e: nat)
    requires p <= e <= |s| && IsKeyword(Lower(s[p..e]))
    ensures WordEnd(Word, KEYWORDS, s, p) == Some(e)
  {
    var k := KeywordsAre(Lower(s[p..e]));
    forall j | j in KEYWORDS
      ensures Word(j) != "" && (Word(j)[0] == Word(k)[0] ==> j == k)
    {
      FirstLettersDiffer(j, k);
    }
    assert k in KEYWORDS && e == p + |Word(k)|;
    WordFoundInAnyCase(Word, KEYWORDS, s, p, k);
  }

  /** Such a line is a sentence: its name is what stands before the separators and the brace. */
  lemma SentenceIs(line: string, p: nat, e: nat, b: nat)
    requires StartsSentence(line, p, e, b)
    ensures SentenceName(line) == Some(line[..e])
    ensures Tokenized(line) == Some(Sentence(line[..e], TableOf(Pairs(line, 0))))
  {
    var k := KeywordsAre(Lower(line[p..e]));
    WordsAreLower(k);
    LowerAt(line[p..e], 0);
    assert line[p] == line[p..e][0] && !IsSeparator(line[p]);
    SkippedTo(line, 0, p);
    SkippedTo(line, e, b);
    KeywordFoundInAnyCase(line, p, e);
  }

  lemma WordsAreKeywords(k: Keyword)
    ensures IsKeyword(Word(k))
  {
  }

  lemma SentenceStart(line: string) returns (p: nat, e: nat, b: nat)
    requires SentenceName(line).Some?
    ensures StartsSentence(line, p, e, b)
  {
    p := SkipSeparators(line, 0);
    e := WordEnd(Word, KEYWORDS, line, p).value;
    b := SkipSeparators(line, e);
    var k := WordEndSound(Word, KEYWORDS, line, p);
    WordsAreKeywords(k);
  }

  /** And no other is. */
  lemma SentenceLineIff(line: string)
    ensures Tokenized(line).Some? <==> exists p: nat, e: nat, b: nat :: StartsSentence(line, p, e, b)
  {
    if Tokenized(line).Some? {
      var p, e, b := SentenceStart(line);
    }
    if p: nat, e: nat, b: nat :| StartsSentence(line, p, e, b) {
      SentenceIs(line, p, e, b);
    }
  }
}
