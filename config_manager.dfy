/**
 * The configuration store: named sections of keyed `ConfigValue`s, reached
 * by "section.key" paths; the INI reader and writer; the validation
 * report; and the file-format guess made from a file name.
 *
 * A section is a `map` from key to value and the store a `map` from
 * section name to section; iteration follows `std::map`'s order, given by
 * `SortedKeys`. Number parsing by `std::stod` and number printing of a
 * `double` are outside the model and come in as functions.
 */
module ConfigManager {
  import opened Base
  import opened ConfigValues

  type Section = map<string, ConfigValue>
  type Store = map<string, Section>

  // ---------------------------------------------------------------------
  // ConfigSection

  /** `ConfigSection::getValue`: the stored value, or `ConfigValue()`. */
  function SectionGet(sec: Section, key: string): ConfigValue
  {
    if key in sec then sec[key] else DefaultValue()
  }

  /** `ConfigSection::getInt`: a valid value's int field, else the default. */
  function SectionGetInt(sec: Section, key: string, default: int): int
  {
    var v := SectionGet(sec, key);
    if v.IsValid() then v.asInt else default
  }

  function SectionGetDouble(sec: Section, key: string, default: real): real
  {
    var v := SectionGet(sec, key);
    if v.IsValid() then v.asDouble else default
  }

  function SectionGetBool(sec: Section, key: string, default: bool): bool
  {
    var v := SectionGet(sec, key);
    if v.IsValid() then v.asBool else default
  }

  function SectionGetString(sec: Section, key: string, default: string): string
  {
    var v := SectionGet(sec, key);
    if v.IsValid() then v.asString else default
  }

  function SectionGetArray(sec: Section, key: string): seq<string>
  {
    var v := SectionGet(sec, key);
    if v.IsValid() then v.asArray else []
  }

  /**
   * What the typed getters return, by what is stored: a missing key or a
   * stored integer 0 gives the caller's default; any other value gives its
   * own field, so a stored INTEGER reads as 0.0 through `getDouble` and a
   * stored STRING reads as 0 through `getInt`.
   */
  lemma TypedGetters(sec: Section, key: string, i: int, d: real, s: string, di: int, dd: real)
    ensures key !in sec ==> SectionGetInt(sec, key, di) == di && SectionGetDouble(sec, key, dd) == dd
    ensures SectionGetInt(sec[key := OfInt(i)], key, di) == (if i == 0 then di else i)
    ensures SectionGetDouble(sec[key := OfInt(i)], key, dd) == (if i == 0 then dd else 0.0)
    ensures SectionGetDouble(sec[key := OfDouble(d)], key, dd) == d
    ensures SectionGetInt(sec[key := OfString(s)], key, di) == 0
    ensures SectionGetBool(sec[key := OfBool(false)], key, true) == false
    ensures SectionGetArray(sec[key := OfInt(0)], key) == []
  {
  }

  // ---------------------------------------------------------------------
  // Paths and the store

  /** `parsePath`: split at the first '.'; no '.' means section "default". */
  function ParsePath(path: string): (r: (string, string))
    ensures '.' !in path ==> r == ("default", path)
    ensures '.' in path ==> '.' !in r.0 && r.0 + "." + r.1 == path
  {
    match FindChar(path, '.')
    case None => ("default", path)
    case Some(i) =>
      assert path == path[..i] + "." + path[i + 1..];
      (path[..i], path[i + 1..])
  }

  /** The const `getSection`: the section, or an empty one when absent. */
  function SectionOf(store: Store, name: string): Section
  {
    if name in store then store[name] else map[]
  }

  /** `sections_[section].setValue(key, v)`: creates the section when absent. */
  function Assign(store: Store, section: string, key: string, v: ConfigValue): Store
  {
    store[section := SectionOf(store, section)[key := v]]
  }

  /** `ConfigManager::setValue`. */
  function Put(store: Store, path: string, v: ConfigValue): Store
  {
    var (s, k) := ParsePath(path);
    Assign(store, s, k, v)
  }

  /** `ConfigManager::getValue`. */
  function Lookup(store: Store, path: string): ConfigValue
  {
    var (s, k) := ParsePath(path);
    SectionGet(SectionOf(store, s), k)
  }

  /** `ConfigManager::hasValue`. */
  predicate Has(store: Store, path: string)
  {
    var (s, k) := ParsePath(path);
    s in store && k in store[s]
  }

  /** `ConfigManager::getInt`. */
  function GetInt(store: Store, path: string, default: int): int
  {
    var (s, k) := ParsePath(path);
    SectionGetInt(SectionOf(store, s), k, default)
  }

  /** `ConfigManager::getDouble`. */
  function GetDouble(store: Store, path: string, default: real): real
  {
    var (s, k) := ParsePath(path);
    SectionGetDouble(SectionOf(store, s), k, default)
  }

  /**
   * Writing a path then reading it gives the written value back; the
   * section is created if needed, and no other (section, key) changes.
   */
  lemma PutThenLookup(store: Store, path: string, v: ConfigValue, other: string)
    ensures Lookup(Put(store, path, v), path) == v
    ensures Has(Put(store, path, v), path)
    ensures Put(store, path, v).Keys == store.Keys + {ParsePath(path).0}
    ensures ParsePath(other) != ParsePath(path) ==>
              Lookup(Put(store, path, v), other) == Lookup(store, other)
              && (Has(Put(store, path, v), other) <==> Has(store, other))
  {
  }

  /** A missing path reads as `ConfigValue()`, and `getInt` then gives its default. */
  lemma MissingPathReadsDefault(store: Store, path: string, default: int)
    requires !Has(store, path)
    ensures Lookup(store, path) == DefaultValue()
    ensures GetInt(store, path, default) == default
  {
  }

  // ---------------------------------------------------------------------
  // INI reading

  /** How one INI value is typed. */
  function ParseValue(value: string, stod: string -> Option<real>): ConfigValue
  {
    if value == "true" || value == "false" then OfBool(value == "true")
    else if '.' in value then
      match stod(value)
      case Some(d) => OfDouble(d)
      case None => OfString(value)
    else
      match StoI(value)
      case Some(i) => OfInt(i)
      case None => OfString(value)
  }

  /**
   * A value without '.' that starts with digits is an INTEGER read from
   * those digits alone, whatever text follows them; digits beyond `int`
   * make `stoi` throw and the text is kept as a STRING. "true" and "false"
   * are the only BOOLEANs.
   */
  lemma ParseValueReadsPrefix(digits: string, rest: string, stod: string -> Option<real>)
    requires digits != [] && AllDigits(digits)
    requires (rest == [] || !IsDigit(rest[0])) && '.' !in rest
    ensures ParseValue(digits + rest, stod)
            == if DigitsValue(digits) <= INT_MAX then OfInt(DigitsValue(digits)) else OfString(digits + rest)
    ensures ParseValue("true", stod) == OfBool(true) && ParseValue("false", stod) == OfBool(false)
  {
    var s := digits + rest;
    assert s[0] == digits[0];
    assert s != "true" && s != "false";
    assert '.' !in s by {
      assert forall i :: 0 <= i < |digits| ==> s[i] == digits[i];
    }
    StoIReadsDigitPrefix(digits, rest);
  }

  /** Where a reader is: the current section and the store so far. */
  datatype IniState = IniState(section: string, store: Store)

  /** A trimmed line that opens a section: '[' first and ']' last. */
  predicate IsHeader(line: string)
  {
    line != [] && line[0] == '[' && line[|line| - 1] == ']'
  }

  /** One line of `loadFromINI`. */
  function ProcessLine(st: IniState, raw: string, stod: string -> Option<real>): IniState
  {
    var line := Trim(raw);
    if line == [] || line[0] == '#' || line[0] == ';' then st
    else if IsHeader(line) then
      IniState(line[1..|line| - 1], st.store)
    else
      match FindChar(line, '=')
      case None => st
      case Some(eq) =>
        var key := Trim(line[..eq]);
        var value := Trim(line[eq + 1..]);
        IniState(st.section, Assign(st.store, st.section, key, ParseValue(value, stod)))
  }

  /** The lines in order. */
  function ProcessLines(st: IniState, lines: seq<string>, stod: string -> Option<real>): IniState
    decreases |lines|
  {
    if lines == [] then st
    else ProcessLine(ProcessLines(st, lines[..|lines| - 1], stod), lines[|lines| - 1], stod)
  }

  /** Reading starts in section "default". */
  function LoadText(store: Store, text: string, stod: string -> Option<real>): IniState
  {
    ProcessLines(IniState("default", store), SplitLines(text), stod)
  }

  lemma {:induction false} ProcessLinesConcat(st: IniState, a: seq<string>, b: seq<string>, stod: string -> Option<real>)
    ensures ProcessLines(st, a + b, stod) == ProcessLines(ProcessLines(st, a, stod), b, stod)
    decreases |b|
  {
    if b == [] {
      assert a + b == a;
    } else {
      assert (a + b)[..|a + b| - 1] == a + b[..|b| - 1];
      ProcessLinesConcat(st, a, b[..|b| - 1], stod);
    }
  }

  /** Reading never forgets a section or a key; a value can only be replaced. */
  lemma {:induction false} ProcessLinesKeepsKeys(st: IniState, lines: seq<string>, stod: string -> Option<real>)
    ensures var r := ProcessLines(st, lines, stod).store;
      forall s :: s in st.store ==> s in r && st.store[s].Keys <= r[s].Keys
    decreases |lines|
  {
    if lines != [] {
      ProcessLinesKeepsKeys(st, lines[..|lines| - 1], stod);
    }
  }

  lemma ProcessTwoLines(st: IniState, x: string, y: string, stod: string -> Option<real>)
    ensures ProcessLines(st, [x, y], stod) == ProcessLine(ProcessLine(st, x, stod), y, stod)
  {
    var none: seq<string> := [];
    assert [x][..0] == none;
    assert ProcessLines(st, [x], stod) == ProcessLine(st, x, stod);
    assert [x, y][..1] == [x];
  }

  lemma AssignTwice(s: Store, section: string, key: string, a: ConfigValue, b: ConfigValue)
    ensures Assign(Assign(s, section, key, a), section, key, b) == Assign(s, section, key, b)
  {
    assert SectionOf(s, section)[key := a][key := b] == SectionOf(s, section)[key := b];
  }

  /** A later line for the same key wins. */
  lemma RepeatedKeyOverwrites(st: IniState, key: string, v1: string, v2: string, stod: string -> Option<real>)
    requires KeyRoundTrips(key) && Trimmed(v1) && Trimmed(v2)
    ensures var r := ProcessLines(st, [key + " = " + v1, key + " = " + v2], stod);
      r.section == st.section
      && r.store == Assign(st.store, st.section, key, ParseValue(v2, stod))
  {
    ProcessTwoLines(st, key + " = " + v1, key + " = " + v2, stod);
    KeyLineRead(st.section, st.store, key, v1, stod);
    var mid := Assign(st.store, st.section, key, ParseValue(v1, stod));
    KeyLineRead(st.section, mid, key, v2, stod);
    AssignTwice(st.store, st.section, key, ParseValue(v1, stod), ParseValue(v2, stod));
  }

  /**
   * Lines the reader skips leave the state alone: a line of blanks, a
   * comment ('#' or ';') after any indentation, and a line without '='
   * that is not a header. A header "[name]" switches the section and
   * keeps the store.
   */
  lemma SkippedLines(st: IniState, blank: string, pad: string, c: char, rest: string, raw: string,
                     name: string, stod: string -> Option<real>)
    requires forall i :: 0 <= i < |blank| ==> IsBlank(blank[i])
    requires forall i :: 0 <= i < |pad| ==> IsBlank(pad[i])
    requires c == '#' || c == ';'
    requires '=' !in raw && !IsHeader(Trim(raw))
    ensures ProcessLine(st, blank, stod) == st
    ensures ProcessLine(st, pad + [c] + rest, stod) == st
    ensures ProcessLine(st, raw, stod) == st
    ensures ProcessLine(st, "[" + name + "]", stod) == IniState(name, st.store)
  {
    BlankLineSkipped(st, blank, stod);
    CommentSkipped(st, pad, c, rest, stod);
    NoEqualsSkipped(st, raw, stod);
    HeaderSwitches(st, name, "[" + name + "]", stod);
  }

  lemma BlankLineSkipped(st: IniState, blank: string, stod: string -> Option<real>)
    requires forall i :: 0 <= i < |blank| ==> IsBlank(blank[i])
    ensures ProcessLine(st, blank, stod) == st
  {
    AllBlankTrimsEmpty(blank);
  }

  lemma CommentSkipped(st: IniState, pad: string, c: char, rest: string, stod: string -> Option<real>)
    requires forall i :: 0 <= i < |pad| ==> IsBlank(pad[i])
    requires c == '#' || c == ';'
    ensures ProcessLine(st, pad + [c] + rest, stod) == st
  {
    assert pad + [c] + rest == pad + ([c] + rest);
    TrimLeftBlankPrefix(pad, [c] + rest);
    TrimRightKeepsHead([c] + rest);
  }

  lemma NoEqualsSkipped(st: IniState, raw: string, stod: string -> Option<real>)
    requires '=' !in raw && !IsHeader(Trim(raw))
    ensures ProcessLine(st, raw, stod) == st
  {
    TrimLeftKeepsOut(raw, '=');
    TrimRightKeepsOut(TrimLeft(raw), '=');
  }

  lemma HeaderSwitches(st: IniState, name: string, h: string, stod: string -> Option<real>)
    requires h == "[" + name + "]"
    ensures ProcessLine(st, h, stod) == IniState(name, st.store)
  {
    assert Trimmed(h);
    TrimmedFixed(h);
    assert h[1..|h| - 1] == name;
  }

  // ---------------------------------------------------------------------
  // INI writing (`toString`)

  /** Items joined by ", ", as the array case of `toString` prints them. */
  function JoinComma(items: seq<string>): string
  {
    if items == [] then ""
    else if |items| == 1 then items[0]
    else JoinComma(items[..|items| - 1]) + ", " + items[|items| - 1]
  }

  /** The text `toString` prints for a value; `formatDouble` is `operator<<` on a double. */
  function RenderValue(v: ConfigValue, formatDouble: real -> string): string
  {
    match v.kind
    case Integer => IntToString(v.asInt)
    case Double => formatDouble(v.asDouble)
    case Boolean => if v.asBool then "true" else "false"
    case String => v.asString
    case Array => "[" + JoinComma(v.asArray) + "]"
  }

  function KeyLine(key: string, v: ConfigValue, formatDouble: real -> string): string
  {
    key + " = " + RenderValue(v, formatDouble)
  }

  function KeyLines(sec: Section, keys: seq<string>, formatDouble: real -> string): seq<string>
    requires forall k :: k in keys ==> k in sec
  {
    if keys == [] then []
    else KeyLines(sec, keys[..|keys| - 1], formatDouble)
           + [KeyLine(keys[|keys| - 1], sec[keys[|keys| - 1]], formatDouble)]
  }

  function SectionLines(name: string, sec: Section, formatDouble: real -> string): seq<string>
  {
    ["[" + name + "]"] + KeyLines(sec, SortedKeys(sec.Keys), formatDouble) + [""]
  }

  function RenderSections(store: Store, names: seq<string>, formatDouble: real -> string): seq<string>
    requires forall n :: n in names ==> n in store
  {
    if names == [] then []
    else RenderSections(store, names[..|names| - 1], formatDouble)
           + SectionLines(names[|names| - 1], store[names[|names| - 1]], formatDouble)
  }

  /** The lines of `toString`: sections and keys in map order. */
  function RenderLines(store: Store, formatDouble: real -> string): seq<string>
  {
    RenderSections(store, SortedKeys(store.Keys), formatDouble)
  }

  // ---------------------------------------------------------------------
  // The round trip: what `toString` writes, `loadFromINI` reads back

  /** A key that survives being written and read: no '=', newline or surrounding blanks, no comment or header start. */
  predicate KeyRoundTrips(k: string)
  {
    Trimmed(k) && '=' !in k && '\n' !in k
    && (k != [] ==> k[0] != '#' && k[0] != ';' && k[0] != '[')
  }

  /** A value that survives: an int, a bool, or a plain string. */
  predicate ValueRoundTrips(v: ConfigValue, stod: string -> Option<real>)
  {
    || (v == OfInt(v.asInt) && IsInt32(v.asInt))
    || v == OfBool(v.asBool)
    || (v == OfString(v.asString) && PlainString(v.asString, stod))
  }

  /** A string that the INI typing rules keep as a string. */
  predicate PlainString(s: string, stod: string -> Option<real>)
  {
    Trimmed(s) && '\n' !in s && s != "true" && s != "false"
    && ('.' in s ==> stod(s).None?)
    && ('.' !in s ==> StoI(s).None?)
  }

  predicate StoreRoundTrips(store: Store, stod: string -> Option<real>)
  {
    forall s :: s in store ==>
      '\n' !in s
      && forall k :: k in store[s] ==> KeyRoundTrips(k) && ValueRoundTrips(store[s][k], stod)
  }

  /** The sections that hold at least one key. */
  function NonEmptySections(store: Store): Store
  {
    map s | s in store && |store[s]| != 0 :: store[s]
  }

  /**
   * Reading what `toString` wrote into an empty store gives back every
   * section that has keys, with the same keys and values; empty sections
   * are not recreated.
   */
  lemma IniRoundTrip(store: Store, formatDouble: real -> string, stod: string -> Option<real>)
    requires StoreRoundTrips(store, stod)
    ensures LoadText(map[], JoinLines(RenderLines(store, formatDouble)), stod).store
            == NonEmptySections(store)
  {
    var names := SortedKeys(store.Keys);
    SortedNamesRead(store, names, formatDouble, stod);
    SplitJoinLines(RenderLines(store, formatDouble));
  }

  lemma SortedNamesRead(store: Store, names: seq<string>, formatDouble: real -> string, stod: string -> Option<real>)
    requires StoreRoundTrips(store, stod)
    requires forall n :: n in names <==> n in store
    requires StrictlyAscending(names)
    ensures NoNewline(RenderSections(store, names, formatDouble))
    ensures ProcessLines(IniState("default", map[]), RenderSections(store, names, formatDouble), stod).store
            == NonEmptySections(store)
  {
    AscendingDistinct(names);
    RenderSectionsRead(store, names, formatDouble, stod);
    RestrictAll(store, names);
  }

  lemma AscendingDistinct(names: seq<string>)
    requires StrictlyAscending(names)
    ensures Distinct(names)
  {
    forall a, b | 0 <= a < b < |names| ensures names[a] != names[b] {
      assert StrLt(names[a], names[b]);
    }
  }

  lemma RestrictAll(store: Store, names: seq<string>)
    requires forall n :: n in names <==> n in store
    ensures Restrict(store, names) == NonEmptySections(store)
  {
  }

  function Restrict(store: Store, names: seq<string>): Store
  {
    map s | s in names && s in store && |store[s]| != 0 :: store[s]
  }

  lemma RenderSectionsSnoc(store: Store, names: seq<string>, j: nat, formatDouble: real -> string)
    requires 0 < j <= |names|
    requires forall n :: n in names ==> n in store
    ensures RenderSections(store, names[..j], formatDouble)
            == RenderSections(store, names[..j - 1], formatDouble)
               + SectionLines(names[j - 1], store[names[j - 1]], formatDouble)
  {
    assert names[..j][..j - 1] == names[..j - 1];
  }

  lemma RestrictStep(store: Store, names: seq<string>, j: nat)
    requires 0 < j <= |names|
    requires names[j - 1] in store
    ensures var n := names[j - 1];
      Restrict(store, names[..j])
      == if |store[n]| == 0 then Restrict(store, names[..j - 1])
         else Restrict(store, names[..j - 1])[n := store[n]]
  {
    assert forall x :: x in names[..j] <==> x in names[..j - 1] || x == names[j - 1];
  }

  lemma NoNewlineConcat(a: seq<string>, b: seq<string>)
    requires NoNewline(a) && NoNewline(b)
    ensures NoNewline(a + b)
  {
    assert forall i :: |a| <= i < |a + b| ==> (a + b)[i] == b[i - |a|];
  }

  /** Reading one more section after `before`, which left `name` unread. */
  lemma SectionAfter(init: IniState, before: seq<string>, s: Store, name: string, sec: Section,
                     formatDouble: real -> string, stod: string -> Option<real>)
    requires NoNewline(before)
    requires ProcessLines(init, before, stod).store == s
    requires name !in s && '\n' !in name
    requires forall k :: k in sec ==> KeyRoundTrips(k) && ValueRoundTrips(sec[k], stod)
    ensures NoNewline(before + SectionLines(name, sec, formatDouble))
    ensures ProcessLines(init, before + SectionLines(name, sec, formatDouble), stod).store
            == if |sec| == 0 then s else s[name := sec]
  {
    var st := ProcessLines(init, before, stod);
    var section := SectionLines(name, sec, formatDouble);
    SectionRead(st, name, sec, formatDouble, stod);
    ProcessLinesConcat(init, before, section, stod);
    NoNewlineConcat(before, section);
  }

  /** No name occurs twice. */
  predicate Distinct(names: seq<string>)
  {
    forall a, b :: 0 <= a < b < |names| ==> names[a] != names[b]
  }

  /** Without its last name, a list of distinct names is still distinct and lacks that name. */
  lemma DistinctLast(names: seq<string>)
    requires names != [] && Distinct(names)
    ensures Distinct(names[..|names| - 1]) && names[|names| - 1] !in names[..|names| - 1]
  {
    var prefix := names[..|names| - 1];
    assert forall a :: 0 <= a < |prefix| ==> prefix[a] == names[a];
  }

  /** Reading what the sections `names` render to gives back those of them that hold keys. */
  lemma {:induction false} RenderSectionsRead(store: Store, names: seq<string>,
                                              formatDouble: real -> string, stod: string -> Option<real>)
    requires StoreRoundTrips(store, stod)
    requires forall n :: n in names ==> n in store
    requires Distinct(names)
    ensures NoNewline(RenderSections(store, names, formatDouble))
    ensures ProcessLines(IniState("default", map[]), RenderSections(store, names, formatDouble), stod).store
            == Restrict(store, names)
    decreases |names|
  {
    if names == [] {
      assert Restrict(store, []) == map[];
    } else {
      var done, n := names[..|names| - 1], names[|names| - 1];
      assert names == done + [n];
      DistinctLast(names);
      RenderSectionsRead(store, done, formatDouble, stod);
      SectionRoundTrips(store, n, stod);
      RenderSectionsStep(IniState("default", map[]), store, done, n, formatDouble, stod);
    }
  }

  /** A section of a store that round-trips has a name and keys and values that do. */
  lemma SectionRoundTrips(store: Store, n: string, stod: string -> Option<real>)
    requires StoreRoundTrips(store, stod) && n in store
    ensures '\n' !in n && forall k :: k in store[n] ==> KeyRoundTrips(k) && ValueRoundTrips(store[n][k], stod)
  {
  }

  /** Reading section `n` after the sections `done` have been read. */
  lemma RenderSectionsStep(init: IniState, store: Store, done: seq<string>, n: string,
                           formatDouble: real -> string, stod: string -> Option<real>)
    requires forall x :: x in done ==> x in store
    requires n in store && n !in done && '\n' !in n
    requires forall k :: k in store[n] ==> KeyRoundTrips(k) && ValueRoundTrips(store[n][k], stod)
    requires NoNewline(RenderSections(store, done, formatDouble))
    requires ProcessLines(init, RenderSections(store, done, formatDouble), stod).store
             == Restrict(store, done)
    ensures NoNewline(RenderSections(store, done + [n], formatDouble))
    ensures ProcessLines(init, RenderSections(store, done + [n], formatDouble), stod).store
            == Restrict(store, done + [n])
  {
    var before := RenderSections(store, done, formatDouble);
    var section := SectionLines(n, store[n], formatDouble);
    assert RenderSections(store, done + [n], formatDouble) == before + section by {
      assert (done + [n])[..|done|] == done;
    }
    var s := Restrict(store, done);
    assert Restrict(store, done + [n]) == if |store[n]| == 0 then s else s[n := store[n]] by {
      RestrictSnoc(store, done, n);
    }
    assert NoNewline(before + section)
           && ProcessLines(init, before + section, stod).store == if |store[n]| == 0 then s else s[n := store[n]] by {
      assert n !in s;
      SectionAfter(init, before, s, n, store[n], formatDouble, stod);
    }
  }

  lemma RestrictSnoc(store: Store, done: seq<string>, n: string)
    requires n in store && n !in done
    ensures Restrict(store, done + [n])
            == if |store[n]| == 0 then Restrict(store, done) else Restrict(store, done)[n := store[n]]
  {
    assert forall x :: x in done + [n] <==> x in done || x == n;
  }

  /** A "[name]" line as `toString` writes it switches to that section. */
  lemma HeaderLineRead(st: IniState, name: string, stod: string -> Option<real>)
    ensures ProcessLine(st, "[" + name + "]", stod) == IniState(name, st.store)
  {
    var header := "[" + name + "]";
    assert Trimmed(header);
    TrimmedFixed(header);
    assert header[1..|header| - 1] == name;
  }

  /** The blank line after a section is skipped. */
  lemma BlankLineRead(st: IniState, stod: string -> Option<real>)
    ensures ProcessLine(st, "", stod) == st
  {
    assert Trim("") == "";
  }

  /** A header, one line per key of `keys`, and a blank line read back as that section. */
  lemma SectionBodyRead(st: IniState, name: string, sec: Section, keys: seq<string>,
                        formatDouble: real -> string, stod: string -> Option<real>)
    requires name !in st.store && '\n' !in name
    requires forall k :: k in keys <==> k in sec
    requires forall k :: k in sec ==> KeyRoundTrips(k) && ValueRoundTrips(sec[k], stod)
    ensures var lines := ["[" + name + "]"] + KeyLines(sec, keys, formatDouble) + [""];
      NoNewline(lines)
      && ProcessLines(st, lines, stod).store == ReadSoFar(st.store, name, sec, keys, |keys|)
  {
    var header := "[" + name + "]";
    var body := KeyLines(sec, keys, formatDouble);
    var none: seq<string> := [];
    assert [header][..0] == none;
    HeaderLineRead(st, name, stod);
    KeyLinesRead(name, st.store, sec, keys, |keys|, formatDouble, stod);
    assert keys[..|keys|] == keys;
    ProcessLinesConcat(st, [header], body, stod);
    var afterBody := IniState(name, ReadSoFar(st.store, name, sec, keys, |keys|));
    ProcessLinesSnoc(st, [header] + body, "", stod);
    BlankLineRead(afterBody, stod);
    assert NoNewline([header] + body) by {
      assert forall i :: 0 < i < |[header] + body| ==> ([header] + body)[i] == body[i - 1];
    }
    NoNewlineSnoc([header] + body, "");
  }

  lemma SectionRead(st: IniState, name: string, sec: Section,
                    formatDouble: real -> string, stod: string -> Option<real>)
    requires name !in st.store && '\n' !in name
    requires forall k :: k in sec ==> KeyRoundTrips(k) && ValueRoundTrips(sec[k], stod)
    ensures NoNewline(SectionLines(name, sec, formatDouble))
    ensures ProcessLines(st, SectionLines(name, sec, formatDouble), stod).store
            == if |sec| == 0 then st.store else st.store[name := sec]
  {
    var keys := SortedKeys(sec.Keys);
    SectionBodyRead(st, name, sec, keys, formatDouble, stod);
    CoveringKeysReadSection(st.store, name, sec, keys);
  }

  lemma CoveringKeysEmpty(sec: Section, keys: seq<string>)
    requires forall k :: k in keys <==> k in sec
    ensures |sec| == 0 <==> keys == []
  {
    if keys != [] {
      assert keys[0] in sec;
    }
    if |sec| != 0 {
      var k :| k in sec;
      assert k in keys;
    }
  }

  lemma CoveringKeysReadSection(s: Store, name: string, sec: Section, keys: seq<string>)
    requires forall k :: k in keys <==> k in sec
    ensures ReadSoFar(s, name, sec, keys, |keys|) == if |sec| == 0 then s else s[name := sec]
  {
    CoveringKeysEmpty(sec, keys);
    if |sec| != 0 {
      assert keys[..|keys|] == keys;
      assert (map k | k in keys :: sec[k]) == sec;
    }
  }

  lemma ProcessLinesSnoc(st: IniState, lines: seq<string>, x: string, stod: string -> Option<real>)
    ensures ProcessLines(st, lines + [x], stod) == ProcessLine(ProcessLines(st, lines, stod), x, stod)
  {
    assert (lines + [x])[..|lines|] == lines;
  }

  lemma NoNewlineSnoc(lines: seq<string>, x: string)
    requires NoNewline(lines) && '\n' !in x
    ensures NoNewline(lines + [x])
  {
    assert forall i :: 0 <= i < |lines| ==> (lines + [x])[i] == lines[i];
  }

  lemma KeyLinesSnoc(sec: Section, keys: seq<string>, j: nat, formatDouble: real -> string)
    requires 0 < j <= |keys|
    requires forall k :: k in keys ==> k in sec
    ensures KeyLines(sec, keys[..j], formatDouble)
            == KeyLines(sec, keys[..j - 1], formatDouble) + [KeyLine(keys[j - 1], sec[keys[j - 1]], formatDouble)]
  {
    assert keys[..j][..j - 1] == keys[..j - 1];
  }

  /** The section as read after the first `j` keys. */
  function ReadSoFar(s: Store, name: string, sec: Section, keys: seq<string>, j: nat): Store
    requires j <= |keys|
    requires forall k :: k in keys ==> k in sec
  {
    if j == 0 then s else s[name := map k | k in keys[..j] :: sec[k]]
  }

  lemma ReadSoFarStep(s: Store, name: string, sec: Section, keys: seq<string>, j: nat)
    requires name !in s
    requires 0 < j <= |keys|
    requires forall k :: k in keys ==> k in sec
    ensures Assign(ReadSoFar(s, name, sec, keys, j - 1), name, keys[j - 1], sec[keys[j - 1]])
            == ReadSoFar(s, name, sec, keys, j)
  {
    var k := keys[j - 1];
    var before := if j - 1 == 0 then map[] else map x | x in keys[..j - 1] :: sec[x];
    assert SectionOf(ReadSoFar(s, name, sec, keys, j - 1), name) == before;
    assert before[k := sec[k]] == map x | x in keys[..j] :: sec[x] by {
      assert forall x :: x in keys[..j] <==> x in keys[..j - 1] || x == k;
    }
  }

  lemma {:induction false} KeyLinesRead(name: string, s: Store, sec: Section, keys: seq<string>, j: nat,
                                        formatDouble: real -> string, stod: string -> Option<real>)
    requires name !in s
    requires j <= |keys|
    requires forall k :: k in keys ==> k in sec
    requires forall k :: k in sec ==> KeyRoundTrips(k) && ValueRoundTrips(sec[k], stod)
    ensures NoNewline(KeyLines(sec, keys[..j], formatDouble))
    ensures ProcessLines(IniState(name, s), KeyLines(sec, keys[..j], formatDouble), stod)
            == IniState(name, ReadSoFar(s, name, sec, keys, j))
    decreases j
  {
    if j == 0 {
      assert keys[..0] == [];
    } else {
      KeyLinesRead(name, s, sec, keys, j - 1, formatDouble, stod);
      KeyLinesStep(name, s, sec, keys, j, formatDouble, stod);
    }
  }

  /** Reading the line of the `j`-th key after those of the first `j - 1`. */
  lemma KeyLinesStep(name: string, s: Store, sec: Section, keys: seq<string>, j: nat,
                     formatDouble: real -> string, stod: string -> Option<real>)
    requires name !in s
    requires 0 < j <= |keys|
    requires forall k :: k in keys ==> k in sec
    requires KeyRoundTrips(keys[j - 1]) && ValueRoundTrips(sec[keys[j - 1]], stod)
    requires NoNewline(KeyLines(sec, keys[..j - 1], formatDouble))
    requires ProcessLines(IniState(name, s), KeyLines(sec, keys[..j - 1], formatDouble), stod)
             == IniState(name, ReadSoFar(s, name, sec, keys, j - 1))
    ensures NoNewline(KeyLines(sec, keys[..j], formatDouble))
    ensures ProcessLines(IniState(name, s), KeyLines(sec, keys[..j], formatDouble), stod)
            == IniState(name, ReadSoFar(s, name, sec, keys, j))
  {
    var k := keys[j - 1];
    var v := sec[k];
    var before := KeyLines(sec, keys[..j - 1], formatDouble);
    var line := KeyLine(k, v, formatDouble);
    assert KeyLines(sec, keys[..j], formatDouble) == before + [line] by {
      KeyLinesSnoc(sec, keys, j, formatDouble);
    }
    var mid := ReadSoFar(s, name, sec, keys, j - 1);
    assert ProcessLine(IniState(name, mid), line, stod) == IniState(name, Assign(mid, name, k, v)) by {
      RenderedValueRoundTrips(v, formatDouble, stod);
      KeyLineRead(name, mid, k, RenderValue(v, formatDouble), stod);
    }
    assert '\n' !in line by {
      RenderedValueRoundTrips(v, formatDouble, stod);
    }
    ProcessLinesSnoc(IniState(name, s), before, line, stod);
    NoNewlineSnoc(before, line);
    ReadSoFarStep(s, name, sec, keys, j);
  }

  /** The value text `toString` writes reads back as the same value. */
  lemma RenderedValueRoundTrips(v: ConfigValue, formatDouble: real -> string, stod: string -> Option<real>)
    requires ValueRoundTrips(v, stod)
    ensures Trimmed(RenderValue(v, formatDouble)) && '\n' !in RenderValue(v, formatDouble)
    ensures ParseValue(RenderValue(v, formatDouble), stod) == v
  {
    if v == OfInt(v.asInt) && IsInt32(v.asInt) {
      var t := IntToString(v.asInt);
      StoIOfIntToString(v.asInt);
      assert t != "true" && t != "false" by {
        assert t[0] != 't' && t[0] != 'f';
      }
    } else if v == OfBool(v.asBool) {
    } else {
    }
  }

  /** A "key = value" line as `toString` writes it sets that key in the current section. */
  lemma KeyLineRead(name: string, s: Store, key: string, value: string, stod: string -> Option<real>)
    requires KeyRoundTrips(key) && Trimmed(value)
    ensures ProcessLine(IniState(name, s), key + " = " + value, stod)
            == IniState(name, Assign(s, name, key, ParseValue(value, stod)))
  {
    var p := if key == [] then "" else key + " ";
    var q := if value == [] then "" else " " + value;
    var t := p + "=" + q;
    TrimKeyValueLine(key, value);
    KeyValueText(key, value, p, q, t);
    TrimPadded(key, value);
    AssignmentLine(IniState(name, s), key + " = " + value, t, |p|, key, value, stod);
  }

  /** The trimmed line `p` + "=" + `q` starts like an assignment and has its first '=' after `p`. */
  lemma KeyValueText(key: string, value: string, p: string, q: string, t: string)
    requires KeyRoundTrips(key)
    requires p == (if key == [] then "" else key + " ") && t == p + "=" + q
    ensures t != [] && t[0] != '#' && t[0] != ';' && t[0] != '['
    ensures FindChar(t, '=') == Some(|p|) && t[..|p|] == p && t[|p| + 1..] == q
  {
    assert t[..|p|] == p;
    assert t[|p| + 1..] == q;
    FindCharAt(t, '=', |p|);
  }

  /** A line that trims to an assignment "key=value" sets the key in the current section. */
  lemma AssignmentLine(st: IniState, raw: string, t: string, eq: nat, key: string, value: string,
                       stod: string -> Option<real>)
    requires Trim(raw) == t && t != [] && t[0] != '#' && t[0] != ';' && t[0] != '['
    requires FindChar(t, '=') == Some(eq) && eq < |t|
    requires Trim(t[..eq]) == key && Trim(t[eq + 1..]) == value
    ensures ProcessLine(st, raw, stod) == IniState(st.section, Assign(st.store, st.section, key, ParseValue(value, stod)))
  {
    var line := Trim(raw);
    assert line != [] && line[0] != '#' && line[0] != ';' && line[0] != '[';
    assert FindChar(line, '=') == Some(eq);
  }

  lemma TrimPadded(key: string, value: string)
    requires Trimmed(key) && Trimmed(value)
    ensures Trim(if key == [] then "" else key + " ") == key
    ensures Trim(if value == [] then "" else " " + value) == value
  {
    if key != [] {
      var p := key + " ";
      assert TrimLeft(p) == p;
      assert p[..|p| - 1] == key;
      assert TrimRight(p) == TrimRight(key);
      TrimmedFixed(key);
    }
    if value != [] {
      var q := " " + value;
      assert q[1..] == value;
      TrimmedFixed(value);
      assert TrimLeft(q) == value;
    }
  }

  /** Trimming the written line removes the padding around "=" only where a side is empty. */
  lemma TrimKeyValueLine(key: string, value: string)
    requires Trimmed(key) && Trimmed(value)
    ensures Trim(key + " = " + value)
            == (if key == [] then "" else key + " ") + "=" + (if value == [] then "" else " " + value)
  {
    var left := if key == [] then "= " + value else key + " = " + value;
    var p := if key == [] then "" else key + " ";
    assert left == p + "= " + value;
    TrimLeftKeyValueLine(key, value, left);
    TrimRightKeyValueLine(left, p, value);
  }

  /** Only the blank before "=" goes when the key is empty; otherwise the key's first character stays. */
  lemma TrimLeftKeyValueLine(key: string, value: string, left: string)
    requires Trimmed(key)
    requires left == if key == [] then "= " + value else key + " = " + value
    ensures TrimLeft(key + " = " + value) == left
  {
    var line := key + " = " + value;
    if key == [] {
      assert line[0] == ' ' && line[1..] == left;
      assert left[0] == '=';
    } else {
      assert line[0] == key[0];
    }
  }

  /** Only the blank after "=" goes when the value is empty; otherwise the value's last character stays. */
  lemma TrimRightKeyValueLine(left: string, p: string, value: string)
    requires Trimmed(value)
    requires left == p + "= " + value
    ensures TrimRight(left) == p + "=" + (if value == [] then "" else " " + value)
  {
    var want := p + "=" + (if value == [] then "" else " " + value);
    if value == [] {
      assert left[|left| - 1] == ' ';
      assert left[..|left| - 1] == want;
      assert want[|want| - 1] == '=';
    } else {
      assert left == want;
      assert want[|want| - 1] == value[|value| - 1];
    }
  }


  // ---------------------------------------------------------------------
  // Validation report and file-format guess

  /** The checks of `getValidationErrors` over the four values it reads, in order. */
  function ValidationReport(width: int, height: int, fps: int, scale: real): (errors: seq<string>)
  {
    (if width <= 0 then ["Invalid camera width"] else [])
    + (if height <= 0 then ["Invalid camera height"] else [])
    + (if fps <= 0 then ["Invalid camera FPS"] else [])
    + (if scale <= 1.0 || scale > 2.0 then ["Invalid scale factor"] else [])
  }

  /** `getValidationErrors`: missing camera keys read as 0, a missing scale as 1.1. */
  function ValidationErrors(store: Store): (errors: seq<string>)
  {
    ValidationReport(
      GetInt(store, "camera.width", 0),
      GetInt(store, "camera.height", 0),
      GetInt(store, "camera.fps", 0),
      GetDouble(store, "detection.scale_factor", 1.1))
  }

  /** A report is empty exactly when every value is in range. */
  lemma ReportEmptyIffInRange(width: int, height: int, fps: int, scale: real)
    ensures ValidationReport(width, height, fps, scale) == []
            <==> width > 0 && height > 0 && fps > 0 && 1.0 < scale <= 2.0
    ensures |ValidationReport(width, height, fps, scale)| <= 4
    ensures "Invalid scale factor" in ValidationReport(width, height, fps, scale)
            <==> scale <= 1.0 || scale > 2.0
  {
    var r := ValidationReport(width, height, fps, scale);
    if scale <= 1.0 || scale > 2.0 {
      assert r[|r| - 1] == "Invalid scale factor";
    } else {
      assert "Invalid scale factor" != "Invalid camera width";
      assert "Invalid scale factor" != "Invalid camera height";
      assert "Invalid scale factor" != "Invalid camera FPS";
    }
  }

  /** Failed camera checks come first, in the order width, height, FPS. */
  lemma CameraChecksFirst(width: int, height: int, fps: int, scale: real)
    requires width <= 0 && height <= 0 && fps <= 0
    ensures var r := ValidationReport(width, height, fps, scale);
      |r| >= 3 && r[0] == "Invalid camera width" && r[1] == "Invalid camera height"
      && r[2] == "Invalid camera FPS"
  {
  }

  /* The four paths the startup validation reads, split at their dot. */

  lemma WidthPath()
    ensures ParsePath("camera.width") == ("camera", "width")
  {
    var p := "camera.width";
    var head := p[..6];
    assert head == "camera";
    assert '.' !in head by {
      forall j | 0 <= j < |head| ensures head[j] != '.' { }
    }
    FindCharAt(p, '.', 6);
    assert p[7..] == "width";
  }

  lemma HeightPath()
    ensures ParsePath("camera.height") == ("camera", "height")
  {
    var p := "camera.height";
    var head := p[..6];
    assert head == "camera";
    assert '.' !in head by {
      forall j | 0 <= j < |head| ensures head[j] != '.' { }
    }
    FindCharAt(p, '.', 6);
    assert p[7..] == "height";
  }

  lemma FpsPath()
    ensures ParsePath("camera.fps") == ("camera", "fps")
  {
    var p := "camera.fps";
    var head := p[..6];
    assert head == "camera";
    assert '.' !in head by {
      forall j | 0 <= j < |head| ensures head[j] != '.' { }
    }
    FindCharAt(p, '.', 6);
    assert p[7..] == "fps";
  }

  lemma ScalePath()
    ensures ParsePath("detection.scale_factor") == ("detection", "scale_factor")
  {
    var p := "detection.scale_factor";
    var head := p[..9];
    assert head == "detection";
    assert '.' !in head by {
      forall j | 0 <= j < |head| ensures head[j] != '.' { }
    }
    FindCharAt(p, '.', 9);
    assert p[10..] == "scale_factor";
  }

  /** With no "camera" section, the three camera checks all report, first and in order. */
  lemma MissingCameraReported(store: Store)
    requires "camera" !in store
    ensures |ValidationErrors(store)| >= 3
    ensures ValidationErrors(store)[0] == "Invalid camera width"
    ensures ValidationErrors(store)[1] == "Invalid camera height"
    ensures ValidationErrors(store)[2] == "Invalid camera FPS"
  {
    var scale := GetDouble(store, "detection.scale_factor", 1.1);
    assert GetInt(store, "camera.width", 0) == 0 by { WidthPath(); }
    assert GetInt(store, "camera.height", 0) == 0 by { HeightPath(); }
    assert GetInt(store, "camera.fps", 0) == 0 by { FpsPath(); }
    assert ValidationErrors(store) == ValidationReport(0, 0, 0, scale);
    CameraChecksFirst(0, 0, 0, scale);
  }

  /**
   * The scale factor check: a missing key counts as 1.1 and passes; a
   * value stored as a non-zero INTEGER reads as 0.0 and is reported, while
   * an INTEGER 0 is not valid and falls back to 1.1.
   */
  lemma ScaleFactorCheck(store: Store, i: int)
    ensures !Has(store, "detection.scale_factor") ==>
              "Invalid scale factor" !in ValidationErrors(store)
    ensures var s := Put(store, "detection.scale_factor", OfInt(i));
              ("Invalid scale factor" in ValidationErrors(s) <==> i != 0)
  {
    var s := Put(store, "detection.scale_factor", OfInt(i));
    if !Has(store, "detection.scale_factor") {
      assert GetDouble(store, "detection.scale_factor", 1.1) == 1.1 by { ScalePath(); }
      ReportEmptyIffInRange(GetInt(store, "camera.width", 0), GetInt(store, "camera.height", 0),
                            GetInt(store, "camera.fps", 0), 1.1);
    }
    assert GetDouble(s, "detection.scale_factor", 1.1) == (if i != 0 then 0.0 else 1.1) by {
      ScalePath();
    }
    ReportEmptyIffInRange(GetInt(s, "camera.width", 0), GetInt(s, "camera.height", 0),
                          GetInt(s, "camera.fps", 0), GetDouble(s, "detection.scale_factor", 1.1));
  }

  datatype ConfigFormat = Json | Ini | Xml | Unknown

  /** The format named by an already lower-cased extension. */
  function FormatOfExtension(ext: string): ConfigFormat
  {
    if ext == "json" then Json
    else if ext == "ini" || ext == "cfg" then Ini
    else if ext == "xml" then Xml
    else Unknown
  }

  /** `ConfigUtils::detectFormat`. */
  function DetectFormat(filename: string): (f: ConfigFormat)
  {
    match FindLastChar(filename, '.')
    case None => Unknown
    case Some(i) => FormatOfExtension(ToLower(filename[i + 1..]))
  }

  /**
   * Only the text after the last '.' matters, in any letter case; a name
   * without '.' is UNKNOWN.
   */
  lemma DetectFormatByLastExtension(stem: string, ext: string)
    requires '.' !in ext
    ensures DetectFormat(stem + "." + ext) == FormatOfExtension(ToLower(ext))
    ensures '.' !in stem ==> DetectFormat(stem) == Unknown
  {
    var name := stem + "." + ext;
    assert name[|stem|] == '.';
    assert name[|stem| + 1..] == ext;
    assert FindLastChar(name, '.') == Some(|stem|);
  }

  /** The guess does not depend on letter case. */
  lemma DetectFormatIgnoresCase(filename: string)
    ensures DetectFormat(ToLower(filename)) == DetectFormat(filename)
  {
    var low := ToLower(filename);
    LowerKeepsLastChar(filename, '.');
    match FindLastChar(filename, '.')
    case None =>
    case Some(i) =>
      LowerSuffix(filename, i + 1);
      LowerIdempotent(filename[i + 1..]);
  }

  // ---------------------------------------------------------------------
  // The manager object

  lemma KeyLinesText(sec: Section, keys: seq<string>, j: nat, formatDouble: real -> string)
    requires j < |keys|
    requires forall k :: k in keys ==> k in sec
    ensures JoinLines(KeyLines(sec, keys[..j + 1], formatDouble))
            == JoinLines(KeyLines(sec, keys[..j], formatDouble)) + KeyLine(keys[j], sec[keys[j]], formatDouble) + "\n"
  {
    KeyLinesSnoc(sec, keys, j + 1, formatDouble);
    JoinLinesAppend(KeyLines(sec, keys[..j], formatDouble), KeyLine(keys[j], sec[keys[j]], formatDouble));
  }

  lemma SectionText(name: string, sec: Section, formatDouble: real -> string)
    ensures JoinLines(SectionLines(name, sec, formatDouble))
            == "[" + name + "]" + "\n" + JoinLines(KeyLines(sec, SortedKeys(sec.Keys), formatDouble)) + "\n"
  {
    var header := "[" + name + "]";
    var body := KeyLines(sec, SortedKeys(sec.Keys), formatDouble);
    JoinLinesConcat([header], body);
    assert JoinLines([header]) == header + "\n" by {
      assert [header][1..] == [];
    }
    JoinLinesAppend([header] + body, "");
  }

  lemma RenderSectionsText(store: Store, names: seq<string>, i: nat, formatDouble: real -> string)
    requires i < |names|
    requires forall n :: n in names ==> n in store
    ensures JoinLines(RenderSections(store, names[..i + 1], formatDouble))
            == JoinLines(RenderSections(store, names[..i], formatDouble))
               + JoinLines(SectionLines(names[i], store[names[i]], formatDouble))
  {
    RenderSectionsSnoc(store, names, i + 1, formatDouble);
    JoinLinesConcat(RenderSections(store, names[..i], formatDouble),
                    SectionLines(names[i], store[names[i]], formatDouble));
  }

  class Manager {
    var sections: Store
    var lastError: string

    constructor()
      ensures sections == map[] && lastError == ""
    {
      sections := map[];
      lastError := "";
    }

    /** `setValue`: the path's section is created when absent. */
    method SetValue(path: string, v: ConfigValue)
      modifies this
      ensures sections == Put(old(sections), path, v)
      ensures lastError == old(lastError)
    {
      var (s, k) := ParsePath(path);
      var sec := if s in sections then sections[s] else map[];
      sections := sections[s := sec[k := v]];
    }

    /** `clear`. */
    method Clear()
      modifies this
      ensures sections == map[] && lastError == old(lastError)
    {
      sections := map[];
    }

    /** One line of `loadFromINI`: a comment or blank is skipped, a header switches section, an assignment is stored. */
    static method ReadLine(current: string, store: Store, raw: string, stod: string -> Option<real>)
      returns (next: string, store': Store)
      ensures IniState(next, store') == ProcessLine(IniState(current, store), raw, stod)
    {
      next, store' := current, store;
      var line := Trim(raw);
      if line == [] || line[0] == '#' || line[0] == ';' {
      } else if line[0] == '[' && line[|line| - 1] == ']' {
        next := line[1..|line| - 1];
      } else {
        var eq := FindChar(line, '=');
        if eq.Some? {
          var key := Trim(line[..eq.value]);
          var value := Trim(line[eq.value + 1..]);
          var v := ParseValue(value, stod);
          var sec := if current in store then store[current] else map[];
          store' := store[current := sec[key := v]];
        }
      }
    }

    /**
     * `loadFromINI`: `content` is the file's text, or None when the file
     * cannot be opened. The lines are read into the existing sections,
     * starting in "default".
     */
    method LoadFromIni(filename: string, content: Option<string>, stod: string -> Option<real>)
      returns (ok: bool)
      modifies this
      ensures content.None? ==>
        !ok && lastError == "Cannot open file: " + filename && sections == old(sections)
      ensures content.Some? ==>
        ok && lastError == old(lastError)
        && sections == LoadText(old(sections), content.value, stod).store
    {
      if content.None? {
        lastError := "Cannot open file: " + filename;
        return false;
      }
      var lines := SplitLines(content.value);
      var current := "default";
      var i := 0;
      while i < |lines|
        invariant 0 <= i <= |lines|
        invariant lastError == old(lastError)
        invariant IniState(current, sections)
                  == ProcessLines(IniState("default", old(sections)), lines[..i], stod)
      {
        assert lines[..i + 1][..i] == lines[..i];
        var next, store := ReadLine(current, sections, lines[i], stod);
        current, sections := next, store;
        i := i + 1;
      }
      assert lines[..|lines|] == lines;
      return true;
    }

    /** Prints an ARRAY value as "[a, b, c]". */
    static method RenderArray(items: seq<string>) returns (text: string)
      ensures text == "[" + JoinComma(items) + "]"
    {
      text := "[";
      var i := 0;
      while i < |items|
        invariant 0 <= i <= |items|
        invariant text == "[" + JoinComma(items[..i])
      {
        assert items[..i + 1][..i] == items[..i];
        if i > 0 {
          text := text + ", ";
        }
        text := text + items[i];
        i := i + 1;
      }
      assert items[..|items|] == items;
      text := text + "]";
    }

    /** One "key = value" line of `toString`; arrays print through `RenderArray`. */
    static method RenderKey(key: string, v: ConfigValue, formatDouble: real -> string)
      returns (line: string)
      ensures line == KeyLine(key, v, formatDouble)
    {
      var rendered: string;
      if v.kind == Array {
        rendered := RenderArray(v.asArray);
      } else {
        rendered := RenderValue(v, formatDouble);
      }
      line := key + " = " + rendered;
    }

    /** The "key = value" lines of one section of `toString`, for its keys in order. */
    static method RenderBody(sec: Section, keys: seq<string>, formatDouble: real -> string) returns (body: string)
      requires forall k :: k in keys ==> k in sec
      ensures body == JoinLines(KeyLines(sec, keys, formatDouble))
    {
      body := "";
      var j := 0;
      assert keys[..0] == [];
      while j < |keys|
        invariant 0 <= j <= |keys|
        invariant body == JoinLines(KeyLines(sec, keys[..j], formatDouble))
      {
        var line := RenderKey(keys[j], sec[keys[j]], formatDouble);
        KeyLinesText(sec, keys, j, formatDouble);
        body := body + line + "\n";
        j := j + 1;
      }
      assert keys[..|keys|] == keys;
    }

    /** One section of `toString`: its header, its "key = value" lines, a blank line. */
    static method RenderSection(name: string, sec: Section, formatDouble: real -> string)
      returns (text: string)
      ensures text == JoinLines(SectionLines(name, sec, formatDouble))
    {
      var body := RenderBody(sec, SortedKeys(sec.Keys), formatDouble);
      SectionText(name, sec, formatDouble);
      text := "[" + name + "]" + "\n" + body + "\n";
    }

    /**
     * `toString`: each section as "[name]", its keys as "key = value"
     * lines, and a blank line, all in map order.
     */
    method ToString(formatDouble: real -> string) returns (text: string)
      ensures text == JoinLines(RenderLines(sections, formatDouble))
    {
      text := RenderStore(sections, SortedKeys(sections.Keys), formatDouble);
    }

    /** The sections named by `names`, one after another, as `toString` writes them. */
    static method RenderStore(store: Store, names: seq<string>, formatDouble: real -> string)
      returns (text: string)
      requires forall n :: n in names ==> n in store
      ensures text == JoinLines(RenderSections(store, names, formatDouble))
    {
      text := "";
      var i := 0;
      assert names[..0] == [];
      while i < |names|
        invariant 0 <= i <= |names|
        invariant text == JoinLines(RenderSections(store, names[..i], formatDouble))
      {
        var part := RenderSection(names[i], store[names[i]], formatDouble);
        RenderSectionsText(store, names, i, formatDouble);
        text := text + part;
        i := i + 1;
      }
      assert names[..|names|] == names;
    }
  }
}
