/**
 * Localisation: the two interface languages, their codes and display names,
 * and the translator that looks keys up in the current language's dictionary,
 * then in the English one, then falls back to the key itself.
 *
 * Reading a dictionary from `assets/i18n/<code>.json` is I/O; it is given to
 * the translator as the function `load` from a language code to the
 * dictionary that reading and parsing that file produces (an empty map when
 * the file is missing or malformed).
 */
module Localisation {
  import opened Wrappers
  import opened Numerics
  import opened Text

  datatype Language = English | Russian

  /** The language's file and serialisation code. */
  function Code(l: Language): (r: string)
    ensures |r| == 2
  {
    match l
    case English => "en"
    case Russian => "ru"
  }

  /** The language's name as shown to the user (`AsRef<str>`). */
  function DisplayName(l: Language): (r: string)
    ensures r != Code(English) && r != Code(Russian)
  {
    match l
    case English => "English"
    case Russian => "Русский"
  }

  /**
   * A serialised value as the deserializer offers it: a string it can lend
   * without copying, or anything else (a number, a map, a string with escape
   * sequences that must be unescaped into a fresh buffer).
   */
  datatype SerialValue = BorrowedStr(text: string) | OtherValue

  /**
   * Deserialisation: reading a borrowed string fails on any other value;
   * both the codes and the display names are recognised, and any other
   * string is read as English.
   */
  function Deserialize(v: SerialValue): (r: Option<Language>)
    ensures r.None? <==> v.OtherValue?
    ensures r == Some(Russian) <==> v == BorrowedStr(Code(Russian)) || v == BorrowedStr(DisplayName(Russian))
  {
    match v
    case OtherValue => None
    case BorrowedStr(s) =>
      if s == "ru" || s == "Русский" then Some(Russian)
      else Some(English)
  }

  /** Serialisation writes the code as a string (`serialize_str(self.code())`). */
  function Serialize(l: Language): SerialValue
  {
    BorrowedStr(Code(l))
  }

  /** The enum's `#[repr(u8)]` discriminant. */
  function ToU8(l: Language): u8
  {
    match l
    case English => 0
    case Russian => 1
  }

  /** `From<u8>`: 1 is Russian, every other byte is English. */
  function FromU8(v: u8): (r: Language)
    ensures r == Russian <==> v == 1
  {
    if v == 1 then Russian else English
  }

  lemma SerializeRoundTrip(l: Language)
    ensures Deserialize(Serialize(l)) == Some(l)
    ensures Deserialize(BorrowedStr(DisplayName(l))) == Some(l)
    ensures FromU8(ToU8(l)) == l
  {
  }

  /** Distinct languages have distinct codes, names and discriminants. */
  lemma ConversionsInjective(l: Language, m: Language)
    requires l != m
    ensures Code(l) != Code(m) && DisplayName(l) != DisplayName(m) && ToU8(l) != ToU8(m)
  {
  }

  /** The text substituted for argument `name`: the name wrapped in braces. */
  function Placeholder(name: string): (r: string)
    ensures |r| == |name| + 2 && r[0] == '{' && r[|r| - 1] == '}'
  {
    "{" + name + "}"
  }

  /**
   * The result of substituting `args` into `s`, one argument at a time in
   * list order, each replacing every occurrence of its placeholder.
   */
  function ApplyArgs(s: string, args: seq<(string, string)>): (r: string)
    decreases |args|
  {
    if args == [] then s
    else
      var last := args[|args| - 1];
      Replace(ApplyArgs(s, args[..|args| - 1]), Placeholder(last.0), last.1)
  }

  /** A template without any `{` has nothing to substitute, whatever the arguments. */
  lemma {:induction false} ApplyArgsNoBrace(s: string, args: seq<(string, string)>)
    requires '{' !in s
    ensures ApplyArgs(s, args) == s
    decreases |args|
  {
    if args != [] {
      ApplyArgsNoBrace(s, args[..|args| - 1]);
    }
  }

  /**
   * A single argument whose placeholder occurs once, after brace-free text,
   * is substituted in place and the text around it is kept.
   */
  lemma SingleArgument(before: string, name: string, after: string, value: string)
    requires '{' !in before && '{' !in after
    ensures ApplyArgs(before + Placeholder(name) + after, [(name, value)]) == before + value + after
  {
    var args := [(name, value)];
    assert args[..0] == [];
    ReplaceFirstOccurrence(before, Placeholder(name), after, value);
  }

  class I18n {
    var lang: Language
    var en: map<string, string>
    var current: map<string, string>

    /** `I18n::new`: English is loaded as the fallback and as the current language. */
    constructor (load: string -> map<string, string>)
      ensures lang == English
      ensures en == load(Code(English)) && current == load(Code(English))
    {
      lang := English;
      en := load(Code(English));
      current := map[];
      new;
      SetLanguage(English, load);
    }

    function GetLanguage(): Language
      reads this
    {
      lang
    }

    /** Switches language and always reloads its dictionary, even for the same language. */
    method SetLanguage(l: Language, load: string -> map<string, string>)
      modifies this
      ensures GetLanguage() == l
      ensures current == load(Code(l))
      ensures en == old(en)
    {
      lang := l;
      current := load(Code(l));
    }

    /** The translation of `key`: current language first, then English, then the key itself. */
    function Tr(key: string): (r: string)
      reads this
      ensures key in current ==> r == current[key]
      ensures key !in current && key in en ==> r == en[key]
      ensures key !in current && key !in en ==> r == key
    {
      if key in current then current[key]
      else if key in en then en[key]
      else key
    }

    /** The translation of `key` if either dictionary has one. */
    function TryTr(key: string): (r: Option<string>)
      reads this
    {
      if key in current then Some(current[key])
      else if key in en then Some(en[key])
      else None
    }

    /** `TryTr` fails exactly when neither dictionary knows the key, and otherwise agrees with `Tr`. */
    lemma TryTrAgreesWithTr(key: string)
      ensures TryTr(key).None? <==> key !in current && key !in en
      ensures TryTr(key).Some? ==> Tr(key) == TryTr(key).value
      ensures TryTr(key).None? ==> Tr(key) == key
    {
    }

    /** `tr_args`: translate, then substitute each argument in turn. */
    method TrArgs(key: string, args: seq<(string, string)>) returns (r: string)
      ensures r == ApplyArgs(Tr(key), args)
      ensures args == [] ==> r == Tr(key)
    {
      r := Tr(key);
      for i := 0 to |args|
        invariant r == ApplyArgs(Tr(key), args[..i])
      {
        var (k, v) := args[i];
        assert args[..i + 1][..i] == args[..i];
        r := Replace(r, Placeholder(k), v);
      }
      assert args[..|args|] == args;
    }

    /** The label of a prototype: its translation under `proto.<type>.<name>`, or `fallback`. */
    function ProtoLabel(protoType: string, name: string, fallback: string): (r: string)
      reads this
    {
      TryTr(ProtoKey(protoType, name)).UnwrapOr(fallback)
    }

    lemma ProtoLabelFallback(protoType: string, name: string, fallback: string)
      ensures var key := "proto." + protoType + "." + name;
        && (key in current || key in en ==> ProtoLabel(protoType, name, fallback) == Tr(key))
        && (key !in current && key !in en ==> ProtoLabel(protoType, name, fallback) == fallback)
    {
    }
  }

  /** `format!("proto.{proto_type}.{name}")`. */
  function ProtoKey(protoType: string, name: string): string
  {
    "proto." + protoType + "." + name
  }
}
