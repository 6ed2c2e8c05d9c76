/** Subject codes: two letters for the type, two digits for the class, and one
    character that counts the subjects of that type in that class. */
module Subjects {
  import opened Sequences
  import opened Decimal

  datatype Error =
    | InvalidType(subjectType: string)
    | UnknownClass(className: string)
    | InvalidCode(code: string)
    | InvalidFormat(code: string)
    | TypeMismatch
    | ClassMismatch
    | LabelRequired
    | GroupRequired

  // ---------------------------------------------------------------------
  // Tables
  // ---------------------------------------------------------------------

  /** The entries of a JavaScript object, in insertion order. */
  type Table<K, V> = seq<(K, V)>

  function TypeCodes(): Table<string, string> {
    [("LANGUAGE", "LN"), ("MATHEMATICS", "MA"), ("SCIENCE", "SC"), ("RELIGIOUS", "RE"),
     ("SOCIAL", "SO"), ("COMPUTER", "CP"), ("ARTS", "AR"), ("GENERAL", "GN")]
  }

  function ClassOrder(): Table<string, nat> {
    [("Nursery", 1), ("Prep", 2), ("1st", 3), ("2nd", 4), ("3rd", 5), ("4th", 6),
     ("5th", 7), ("6th", 8), ("7th", 9), ("8th", 10), ("9th", 11), ("10th", 12)]
  }

  /** table[key]. */
  function Lookup<K(==), V>(table: Table<K, V>, key: K): Option<V> {
    if table == [] then None
    else if table[0].0 == key then Some(table[0].1)
    else Lookup(table[1..], key)
  }

  /** The first key with the given value. */
  function FindKey<K, V(==)>(table: Table<K, V>, value: V): Option<K> {
    if table == [] then None
    else if table[0].1 == value then Some(table[0].0)
    else FindKey(table[1..], value)
  }

  ghost predicate OneToOne<K, V>(table: Table<K, V>) {
    forall i, j | 0 <= i < j < |table| :: table[i].0 != table[j].0 && table[i].1 != table[j].1
  }

  lemma {:induction false} LookupAt<K, V>(table: Table<K, V>, key: K)
    ensures Lookup(table, key).Some? ==> (key, Lookup(table, key).value) in table
  {
    if table != [] && table[0].0 != key {
      LookupAt(table[1..], key);
    } else if table != [] {
      assert table[0] == (key, table[0].1);
    }
  }

  lemma {:induction false} FindKeyAt<K, V>(table: Table<K, V>, value: V)
    ensures FindKey(table, value).Some? ==> (FindKey(table, value).value, value) in table
  {
    if table != [] && table[0].1 != value {
      FindKeyAt(table[1..], value);
    } else if table != [] {
      assert table[0] == (table[0].0, value);
    }
  }

  lemma {:induction false} EntryIsFound<K, V>(table: Table<K, V>, i: nat)
    requires OneToOne(table) && i < |table|
    ensures Lookup(table, table[i].0) == Some(table[i].1) && FindKey(table, table[i].1) == Some(table[i].0)
  {
    if i > 0 {
      EntryIsFound(table[1..], i - 1);
    }
  }

  lemma TableInverts<K, V>(table: Table<K, V>, key: K, value: V)
    requires OneToOne(table)
    ensures Lookup(table, key) == Some(value) <==> FindKey(table, value) == Some(key)
  {
    LookupAt(table, key);
    FindKeyAt(table, value);
    if (key, value) in table {
      var i :| 0 <= i < |table| && table[i] == (key, value);
      EntryIsFound(table, i);
    }
  }

  function PrefixOf(subjectType: string): Option<string> {
    Lookup(TypeCodes(), subjectType)
  }

  function NumberOf(className: string): Option<nat> {
    Lookup(ClassOrder(), className)
  }

  predicate IsLetter(c: char) {
    'A' <= c <= 'Z'
  }

  predicate IsPrefix(s: string) {
    |s| == 2 && IsLetter(s[0]) && IsLetter(s[1])
  }

  lemma TypeCodesAreOneToOne()
    ensures OneToOne(TypeCodes()) && forall e | e in TypeCodes() :: IsPrefix(e.1)
  {
    var keys := ["LANGUAGE", "MATHEMATICS", "SCIENCE", "RELIGIOUS", "SOCIAL", "COMPUTER", "ARTS", "GENERAL"];
    forall i, j | 0 <= i < j < |keys| ensures keys[i] != keys[j] {
      assert keys[i][0] != keys[j][0] || keys[i][1] != keys[j][1] || keys[i][2] != keys[j][2];
    }
    var values := ["LN", "MA", "SC", "RE", "SO", "CP", "AR", "GN"];
    forall i, j | 0 <= i < j < |values| ensures values[i] != values[j] {
      assert values[i][0] != values[j][0] || values[i][1] != values[j][1];
    }
    assert forall i | 0 <= i < 8 :: TypeCodes()[i] == (keys[i], values[i]) && IsPrefix(values[i]);
  }

  lemma ClassOrderIsOneToOne()
    ensures OneToOne(ClassOrder()) && forall e | e in ClassOrder() :: 1 <= e.1 <= 12
  {
    var keys := ["Nursery", "Prep", "1st", "2nd", "3rd", "4th", "5th", "6th", "7th", "8th", "9th", "10th"];
    forall i, j | 0 <= i < j < |keys| ensures keys[i] != keys[j] {
      assert keys[i][0] != keys[j][0] || keys[i][1] != keys[j][1];
    }
    assert forall i | 0 <= i < 12 :: ClassOrder()[i] == (keys[i], i + 1);
  }

  lemma PrefixesInvert(subjectType: string, prefix: string)
    ensures PrefixOf(subjectType) == Some(prefix) <==> FindKey(TypeCodes(), prefix) == Some(subjectType)
    ensures PrefixOf(subjectType) == Some(prefix) ==> IsPrefix(prefix)
  {
    TypeCodesAreOneToOne();
    TableInverts(TypeCodes(), subjectType, prefix);
    LookupAt(TypeCodes(), subjectType);
  }

  lemma NumbersInvert(className: string, number: nat)
    ensures NumberOf(className) == Some(number) <==> FindKey(ClassOrder(), number) == Some(className)
    ensures NumberOf(className) == Some(number) ==> 1 <= number <= 12
  {
    ClassOrderIsOneToOne();
    TableInverts(ClassOrder(), className, number);
    LookupAt(ClassOrder(), className);
  }

  lemma TypeIs(i: nat, subjectType: string, prefix: string)
    requires i < 8 && TypeCodes()[i] == (subjectType, prefix)
    ensures PrefixOf(subjectType) == Some(prefix)
  {
    TypeCodesAreOneToOne();
    EntryIsFound(TypeCodes(), i);
  }

  /** The eight types and their codes. */
  lemma TypeTable()
    ensures PrefixOf("LANGUAGE") == Some("LN") && PrefixOf("MATHEMATICS") == Some("MA")
    ensures PrefixOf("SCIENCE") == Some("SC") && PrefixOf("RELIGIOUS") == Some("RE")
    ensures PrefixOf("SOCIAL") == Some("SO") && PrefixOf("COMPUTER") == Some("CP")
    ensures PrefixOf("ARTS") == Some("AR") && PrefixOf("GENERAL") == Some("GN")
  {
    TypeIs(0, "LANGUAGE", "LN");
    TypeIs(1, "MATHEMATICS", "MA");
    TypeIs(2, "SCIENCE", "SC");
    TypeIs(3, "RELIGIOUS", "RE");
    TypeIs(4, "SOCIAL", "SO");
    TypeIs(5, "COMPUTER", "CP");
    TypeIs(6, "ARTS", "AR");
    TypeIs(7, "GENERAL", "GN");
  }

  lemma NoOtherTypes(t: string)
    ensures PrefixOf(t).Some? ==>
      t in ["LANGUAGE", "MATHEMATICS", "SCIENCE", "RELIGIOUS", "SOCIAL", "COMPUTER", "ARTS", "GENERAL"]
  {
    LookupAt(TypeCodes(), t);
  }

  lemma ClassIs(i: nat, className: string, number: nat)
    requires i < 12 && ClassOrder()[i] == (className, number)
    ensures NumberOf(className) == Some(number)
  {
    ClassOrderIsOneToOne();
    EntryIsFound(ClassOrder(), i);
  }

  /** The twelve classes and their numbers. */
  lemma ClassTable()
    ensures NumberOf("Nursery") == Some(1) && NumberOf("Prep") == Some(2) && NumberOf("1st") == Some(3)
    ensures NumberOf("2nd") == Some(4) && NumberOf("3rd") == Some(5) && NumberOf("4th") == Some(6)
    ensures NumberOf("5th") == Some(7) && NumberOf("6th") == Some(8) && NumberOf("7th") == Some(9)
    ensures NumberOf("8th") == Some(10) && NumberOf("9th") == Some(11) && NumberOf("10th") == Some(12)
  {
    ClassIs(0, "Nursery", 1);
    ClassIs(1, "Prep", 2);
    ClassIs(2, "1st", 3);
    ClassIs(3, "2nd", 4);
    ClassIs(4, "3rd", 5);
    ClassIs(5, "4th", 6);
    ClassIs(6, "5th", 7);
    ClassIs(7, "6th", 8);
    ClassIs(8, "7th", 9);
    ClassIs(9, "8th", 10);
    ClassIs(10, "9th", 11);
    ClassIs(11, "10th", 12);
  }

  lemma NoOtherClasses(c: string)
    ensures NumberOf(c).Some? ==>
      c in ["Nursery", "Prep", "1st", "2nd", "3rd", "4th", "5th", "6th", "7th", "8th", "9th", "10th"]
  {
    LookupAt(ClassOrder(), c);
  }

  // ---------------------------------------------------------------------
  // The identifier
  // ---------------------------------------------------------------------

  /** String.fromCharCode: it keeps 16 bits; a lone surrogate is shown as U+FFFD. */
  function FromCharCode(n: int): char {
    var unit := n % 0x1_0000;
    if 0xD800 <= unit < 0xE000 then '\U{FFFD}' else unit as char
  }

  /** JavaScript's remainder, which has the sign of the dividend. */
  function Remainder(a: int, n: int): int
    requires n > 0
  {
    if a >= 0 then a % n else -(-a % n)
  }

  /** String(n) for an integer. */
  function Printed(n: int): string {
    if n < 0 then "-" + Dec(-n) else Dec(n)
  }

  function Identifier(sequence: int, hasComponents: bool, componentIndex: int): string {
    if hasComponents then [FromCharCode(65 + Remainder(componentIndex, 26))]
    else if sequence <= 9 then Printed(sequence)
    else [FromCharCode(65 + (sequence - 10))]
  }

  predicate IsSymbol(s: string) {
    |s| == 1 && (IsDigit(s[0]) || IsLetter(s[0]))
  }

  /** The k-th identifier: the digits, then the letters. */
  function Symbol(k: nat): string
    requires k < 36
  {
    if k < 10 then [DigitChar(k)] else ['A' + (k - 10) as char]
  }

  function SymbolIndex(s: string): (k: nat)
    requires IsSymbol(s)
    ensures k < 36 && Symbol(k) == s
  {
    if IsDigit(s[0]) then DigitValue(s[0]) else s[0] as int - 'A' as int + 10
  }

  lemma SymbolsDiffer(j: nat, k: nat)
    requires j < 36 && k < 36
    ensures IsSymbol(Symbol(k)) && IsLetter(Symbol(k)[0]) == (k >= 10)
    ensures Symbol(j) == Symbol(k) ==> j == k
  {
    if Symbol(j) == Symbol(k) {
      assert Symbol(j)[0] == Symbol(k)[0];
    }
  }

  /** Which identifier the code carries, if it gets one.  Above 9 the character
      code wraps at 16 bits, and a negative component index goes below 'A'. */
  function IndexOf(sequence: int, hasComponents: bool, componentIndex: int): (k: Option<nat>)
    ensures k.Some? ==> k.value < 36
  {
    if !hasComponents && sequence <= 9 then if sequence >= 0 then Some(sequence) else None
    else
      var unit := (if hasComponents then 65 + Remainder(componentIndex, 26) else 55 + sequence) % 0x1_0000;
      if 65 <= unit <= 90 then Some(unit - 55) else if 48 <= unit <= 57 then Some(unit - 48) else None
  }

  /** The identifier passes the pattern exactly when it has an index, and then it
      is the symbol with that index. */
  lemma IdentifierIsSymbolIff(sequence: int, hasComponents: bool, componentIndex: int)
    ensures var i := Identifier(sequence, hasComponents, componentIndex);
      var k := IndexOf(sequence, hasComponents, componentIndex);
      (IsSymbol(i) <==> k.Some?) && (k.Some? ==> i == Symbol(k.value))
  {
  }

  /** Components run through the letters; a negative index reaches the ten digits that
      come shortly before 'A' but for the seven characters between, and nothing else. */
  lemma ComponentLetters(sequence: int, componentIndex: int)
    ensures var k, back := IndexOf(sequence, true, componentIndex), -componentIndex % 26;
      if componentIndex >= 0 then k == Some(10 + componentIndex % 26)
      else if back == 0 then k == Some(10)
      else if 8 <= back <= 17 then k == Some(17 - back)
      else k == None
  {
  }

  /** The whole of a plain sequence above 9, modulo 65536: 10 to 35 are letters, and the
      ten values from 65529 around to 2 are digits. */
  lemma SequenceSymbols(sequence: int)
    requires sequence > 9
    ensures var k, rest := IndexOf(sequence, false, 0), sequence % 65_536;
      if 10 <= rest < 36 then k == Some(rest)
      else if rest >= 65_529 then k == Some(rest - 65_529)
      else if rest < 3 then k == Some(rest + 7)
      else k == None
  {
  }

  // ---------------------------------------------------------------------
  // Encoding, decoding, validation
  // ---------------------------------------------------------------------

  /** /^[A-Z]{2}\d{2}[0-9A-Z]$/ */
  predicate IsCode(code: string) {
    |code| == 5 && IsPrefix(code[..2]) && IsDigit(code[2]) && IsDigit(code[3]) && IsSymbol(code[4..])
  }

  function GenerateSubjectCode(subjectType: string, className: string, sequence: int, hasComponents: bool,
                               componentIndex: int): Result<string, Error>
  {
    if PrefixOf(subjectType).None? then Err(InvalidType(subjectType))
    else if NumberOf(className).None? then Err(UnknownClass(className))
    else
      var code := PrefixOf(subjectType).value + Padded(NumberOf(className).value, 2)
                + Identifier(sequence, hasComponents, componentIndex);
      if IsCode(code) then Ok(code) else Err(InvalidCode(code))
  }

  datatype Decoded = Decoded(subjectType: Option<string>, className: Option<string>, classNum: nat, identifier: string,
                             isComponent: bool)

  function ClassNumber(code: string): nat
    requires IsCode(code)
  {
    10 * DigitValue(code[2]) + DigitValue(code[3])
  }

  function DecodeSubjectCode(code: string): Result<Decoded, Error> {
    if !IsCode(code) then Err(InvalidFormat(code))
    else Ok(Decoded(FindKey(TypeCodes(), code[..2]), FindKey(ClassOrder(), ClassNumber(code)), ClassNumber(code),
                    code[4..], IsLetter(code[4])))
  }

  /** A code taken apart. */
  ghost predicate Spells(code: string, prefix: string, number: nat, identifier: string) {
    IsPrefix(prefix) && number < 100 && IsSymbol(identifier) && code == prefix + TwoDigits(number) + identifier
  }

  lemma SpellsParts(code: string, prefix: string, number: nat, identifier: string)
    requires Spells(code, prefix, number, identifier)
    ensures IsCode(code) && code[..2] == prefix && ClassNumber(code) == number && code[4..] == identifier
  {
    TwoDigitsValue(number);
    assert code[2] == TwoDigits(number)[0] && code[3] == TwoDigits(number)[1] && code[4] == identifier[0];
  }

  lemma CodeSpells(code: string)
    requires IsCode(code)
    ensures ClassNumber(code) < 100 && Spells(code, code[..2], ClassNumber(code), code[4..])
  {
    DigitsAreTwoDigits(code[2], code[3]);
    assert code == code[..2] + [code[2], code[3]] + code[4..];
  }

  lemma IsCodeIff(prefix: string, number: nat, identifier: string)
    requires IsPrefix(prefix) && number < 100
    ensures IsCode(prefix + Padded(number, 2) + identifier) <==> IsSymbol(identifier)
    ensures Padded(number, 2) == TwoDigits(number)
  {
    PaddedTwo(number);
    var code := prefix + Padded(number, 2) + identifier;
    assert code[4..] == identifier;
    if IsSymbol(identifier) {
      SpellsParts(code, prefix, number, identifier);
    }
  }

  /** A code comes out exactly when type and class are known and the identifier
      has an index; that index, the type and the class are all that it shows. */
  lemma CodeAcceptedIff(subjectType: string, className: string, sequence: int, hasComponents: bool, componentIndex: int)
    ensures var r := GenerateSubjectCode(subjectType, className, sequence, hasComponents, componentIndex);
      var k := IndexOf(sequence, hasComponents, componentIndex);
      (r.Ok? <==> PrefixOf(subjectType).Some? && NumberOf(className).Some? && k.Some?) &&
      (r.Ok? ==> Spells(r.value, PrefixOf(subjectType).value, NumberOf(className).value, Symbol(k.value)))
  {
    if PrefixOf(subjectType).Some? && NumberOf(className).Some? {
      PrefixesInvert(subjectType, PrefixOf(subjectType).value);
      NumbersInvert(className, NumberOf(className).value);
      IdentifierIsSymbolIff(sequence, hasComponents, componentIndex);
      IsCodeIff(PrefixOf(subjectType).value, NumberOf(className).value,
                Identifier(sequence, hasComponents, componentIndex));
    }
  }

  /** What a refused code is refused for. */
  lemma CodeErrors(subjectType: string, className: string, sequence: int, hasComponents: bool, componentIndex: int)
    ensures match GenerateSubjectCode(subjectType, className, sequence, hasComponents, componentIndex)
      case Ok(_) => true
      case Err(InvalidType(t)) => t == subjectType && PrefixOf(subjectType).None?
      case Err(UnknownClass(c)) => c == className && PrefixOf(subjectType).Some? && NumberOf(className).None?
      case Err(InvalidCode(_)) => PrefixOf(subjectType).Some? && NumberOf(className).Some?
      case Err(_) => false
  {
  }

  lemma CodeIs(subjectType: string, className: string, sequence: int, hasComponents: bool, componentIndex: int,
               prefix: string, number: nat, k: nat)
    requires PrefixOf(subjectType) == Some(prefix) && NumberOf(className) == Some(number)
    requires IndexOf(sequence, hasComponents, componentIndex) == Some(k)
    ensures number < 100 && k < 36
    ensures GenerateSubjectCode(subjectType, className, sequence, hasComponents, componentIndex)
         == Ok(prefix + TwoDigits(number) + Symbol(k))
  {
    CodeAcceptedIff(subjectType, className, sequence, hasComponents, componentIndex);
  }

  /** The third subject of mathematics in the 9th class. */
  lemma SampleDigitCode()
    ensures GenerateSubjectCode("MATHEMATICS", "9th", 3, false, 0) == Ok("MA" + "11" + "3")
  {
    TypeIs(1, "MATHEMATICS", "MA");
    ClassIs(10, "9th", 11);
    CodeIs("MATHEMATICS", "9th", 3, false, 0, "MA", 11, 3);
    assert TwoDigits(11) == "11" && Symbol(3) == "3";
  }

  /** The tenth language of the nursery. */
  lemma SampleLetterCode()
    ensures GenerateSubjectCode("LANGUAGE", "Nursery", 10, false, 0) == Ok("LN" + "01" + "A")
  {
    TypeIs(0, "LANGUAGE", "LN");
    ClassIs(0, "Nursery", 1);
    CodeIs("LANGUAGE", "Nursery", 10, false, 0, "LN", 1, 10);
    assert TwoDigits(1) == "01" && Symbol(10) == "A";
  }

  /** A second component, whose index is 1. */
  lemma SampleComponentCode()
    ensures GenerateSubjectCode("SCIENCE", "10th", 1, true, 1) == Ok("SC" + "12" + "B")
  {
    TypeIs(2, "SCIENCE", "SC");
    ClassIs(11, "10th", 12);
    CodeIs("SCIENCE", "10th", 1, true, 1, "SC", 12, 11);
    assert TwoDigits(12) == "12" && Symbol(11) == "B";
  }

  /** Decoding recovers type, class and identifier of every generated code.  It
      reports a component for every letter, that is also for a plain subject with
      a sequence above 9. */
  lemma DecodeGenerated(subjectType: string, className: string, sequence: int, hasComponents: bool, componentIndex: int)
    ensures var r := GenerateSubjectCode(subjectType, className, sequence, hasComponents, componentIndex);
      r.Ok? ==>
        var k := IndexOf(sequence, hasComponents, componentIndex);
        k.Some? && NumberOf(className).Some? &&
        DecodeSubjectCode(r.value) ==
          Ok(Decoded(Some(subjectType), Some(className), NumberOf(className).value, Symbol(k.value), k.value >= 10))
  {
    var r := GenerateSubjectCode(subjectType, className, sequence, hasComponents, componentIndex);
    if r.Ok? {
      var k := IndexOf(sequence, hasComponents, componentIndex).value;
      CodeAcceptedIff(subjectType, className, sequence, hasComponents, componentIndex);
      PrefixesInvert(subjectType, PrefixOf(subjectType).value);
      NumbersInvert(className, NumberOf(className).value);
      SpellsParts(r.value, PrefixOf(subjectType).value, NumberOf(className).value, Symbol(k));
      SymbolsDiffer(k, k);
      assert r.value[4] == Symbol(k)[0];
    }
  }

  /** Conversely, a code that decodes to a known type and class is generated by
      the sequence that its identifier stands for. */
  lemma GenerateDecoded(code: string)
    ensures match DecodeSubjectCode(code)
      case Ok(Decoded(Some(subjectType), Some(className), _, identifier, _)) =>
        IsSymbol(identifier) &&
        GenerateSubjectCode(subjectType, className, SymbolIndex(identifier), false, 0) == Ok(code)
      case _ => true
  {
    var r := DecodeSubjectCode(code);
    if r.Ok? && r.value.subjectType.Some? && r.value.className.Some? {
      var d := r.value;
      var k := SymbolIndex(d.identifier);
      CodeSpells(code);
      PrefixesInvert(d.subjectType.value, code[..2]);
      NumbersInvert(d.className.value, d.classNum);
      SequencesUpTo35(k);
      CodeAcceptedIff(d.subjectType.value, d.className.value, k, false, 0);
    }
  }

  /** Below the first wrapped digit, exactly the sequences 0 to 35 get a code. */
  lemma SequencesUpTo35(sequence: int)
    ensures 0 <= sequence < 36 ==> IndexOf(sequence, false, 0) == Some(sequence)
    ensures sequence < 0 || 36 <= sequence < 65_529 ==> IndexOf(sequence, false, 0) == None
  {
  }

  lemma WrappedIndex(sequence: int)
    requires 10 <= sequence && 10 <= sequence % 0x1_0000 < 36
    ensures IndexOf(sequence, false, 0) == Some(sequence % 0x1_0000)
  {
    assert (55 + sequence) % 0x1_0000 == 55 + sequence % 0x1_0000;
  }

  lemma SameIndexSameCode(subjectType: string, className: string, sequence: int, other: int)
    requires PrefixOf(subjectType).Some? && NumberOf(className).Some?
    requires IndexOf(sequence, false, 0).Some? && IndexOf(sequence, false, 0) == IndexOf(other, false, 0)
    ensures GenerateSubjectCode(subjectType, className, sequence, false, 0).Ok?
    ensures GenerateSubjectCode(subjectType, className, other, false, 0)
         == GenerateSubjectCode(subjectType, className, sequence, false, 0)
  {
    CodeAcceptedIff(subjectType, className, sequence, false, 0);
    CodeAcceptedIff(subjectType, className, other, false, 0);
  }

  /** Larger sequences are not always refused: 65546 gets the code of 10, and so on. */
  lemma LargeSequenceAccepted(subjectType: string, className: string, sequence: int)
    requires PrefixOf(subjectType).Some? && NumberOf(className).Some?
    requires 10 <= sequence && 10 <= sequence % 0x1_0000 < 36
    ensures GenerateSubjectCode(subjectType, className, sequence, false, 0).Ok?
    ensures GenerateSubjectCode(subjectType, className, sequence, false, 0)
         == GenerateSubjectCode(subjectType, className, sequence % 0x1_0000, false, 0)
  {
    WrappedIndex(sequence);
    SequencesUpTo35(sequence % 0x1_0000);
    SameIndexSameCode(subjectType, className, sequence, sequence % 0x1_0000);
  }

  /** Two codes are the same exactly when they agree on type, class and index. */
  lemma SameCodeIff(subjectType: string, className: string, sequence: int, otherType: string, otherClass: string,
                    other: int)
    ensures var r := GenerateSubjectCode(subjectType, className, sequence, false, 0);
      var s := GenerateSubjectCode(otherType, otherClass, other, false, 0);
      r.Ok? && s.Ok? ==>
        (r.value == s.value <==>
          subjectType == otherType && className == otherClass &&
          IndexOf(sequence, false, 0) == IndexOf(other, false, 0))
  {
    CodeAcceptedIff(subjectType, className, sequence, false, 0);
    CodeAcceptedIff(otherType, otherClass, other, false, 0);
    DecodeGenerated(subjectType, className, sequence, false, 0);
    DecodeGenerated(otherType, otherClass, other, false, 0);
    if IndexOf(sequence, false, 0).Some? && IndexOf(other, false, 0).Some? {
      SymbolsDiffer(IndexOf(sequence, false, 0).value, IndexOf(other, false, 0).value);
    }
  }

  // ---------------------------------------------------------------------
  // Validation
  // ---------------------------------------------------------------------

  datatype Subject = Subject(title: string, subjectType: string, className: string, orderIndex: int, code: string,
                             hasComponents: bool, componentGroup: Option<string>, isActive: bool)

  predicate IsBlank(s: string) {
    forall c | c in s :: IsSpace(c)
  }

  function ValidateSubjectData(s: Subject): Result<(), Error> {
    if !IsCode(s.code) then Err(InvalidFormat(s.code))
    else if s.subjectType == "" || PrefixOf(s.subjectType) != Some(s.code[..2]) then Err(TypeMismatch)
    else if NumberOf(s.className) != Some(ClassNumber(s.code)) then Err(ClassMismatch)
    else if IsBlank(s.title) then Err(LabelRequired)
    else if s.hasComponents && (s.componentGroup.None? || s.componentGroup.value == "") then Err(GroupRequired)
    else Ok(())
  }

  predicate WellLabelled(title: string, hasComponents: bool, componentGroup: Option<string>) {
    !IsBlank(title) && (hasComponents ==> componentGroup.Some? && componentGroup.value != "")
  }

  /** Valid means: the code is one that the generator gives this type and class,
      the label is not blank, and components have a group. */
  lemma ValidIff(s: Subject)
    ensures ValidateSubjectData(s).Ok? <==>
      (exists k | 0 <= k < 36 :: GenerateSubjectCode(s.subjectType, s.className, k, false, 0) == Ok(s.code)) &&
      WellLabelled(s.title, s.hasComponents, s.componentGroup)
  {
    if ValidateSubjectData(s).Ok? {
      var k := SymbolIndex(s.code[4..]);
      CodeSpells(s.code);
      SequencesUpTo35(k);
      CodeAcceptedIff(s.subjectType, s.className, k, false, 0);
    }
    forall k | 0 <= k < 36 && GenerateSubjectCode(s.subjectType, s.className, k, false, 0) == Ok(s.code)
      ensures ValidateSubjectData(s).Ok? <==> WellLabelled(s.title, s.hasComponents, s.componentGroup)
    {
      GeneratedIsValid(s, k);
    }
  }

  /** What an invalid subject is refused for, in the order of the checks. */
  lemma ValidationErrors(s: Subject)
    ensures match ValidateSubjectData(s)
      case Ok(_) => true
      case Err(InvalidFormat(code)) => code == s.code && !IsCode(s.code)
      case Err(TypeMismatch) => IsCode(s.code) && PrefixOf(s.subjectType) != Some(s.code[..2])
      case Err(ClassMismatch) => IsCode(s.code) && NumberOf(s.className) != Some(ClassNumber(s.code))
      case Err(LabelRequired) => IsBlank(s.title)
      case Err(GroupRequired) => s.hasComponents && (s.componentGroup == None || s.componentGroup == Some(""))
      case Err(_) => false
  {
    LookupAt(TypeCodes(), s.subjectType);
  }

  lemma GeneratedIsValid(s: Subject, sequence: int)
    requires GenerateSubjectCode(s.subjectType, s.className, sequence, false, 0) == Ok(s.code)
    ensures ValidateSubjectData(s).Ok? <==> WellLabelled(s.title, s.hasComponents, s.componentGroup)
  {
    CodeAcceptedIff(s.subjectType, s.className, sequence, false, 0);
    SpellsParts(s.code, PrefixOf(s.subjectType).value, NumberOf(s.className).value,
                Symbol(IndexOf(sequence, false, 0).value));
    assert s.subjectType != "" by {
      LookupAt(TypeCodes(), s.subjectType);
    }
  }

  // ---------------------------------------------------------------------
  // The subjects of a script
  // ---------------------------------------------------------------------

  /** What a call may override; absent fields keep their defaults. */
  datatype Options = Options(title: Option<string>, orderIndex: Option<int>, hasComponents: Option<bool>,
                             componentGroup: Option<string>, isActive: Option<bool>)

  /** One addSubject call. */
  datatype Call = Call(title: string, subjectType: string, className: string, options: Options)

  function Or<T>(option: Option<T>, value: T): T {
    if option.Some? then option.value else value
  }

  function SameKind(subjectType: string, className: string): Call -> bool {
    (c: Call) => c.subjectType == subjectType && c.className == className
  }

  function OfKind(subjectType: string, className: string): Subject -> bool {
    (s: Subject) => s.subjectType == subjectType && s.className == className
  }

  /** The i-th call is the rank-th of its type and class. */
  function Rank(script: seq<Call>, i: nat): nat
    requires i < |script|
  {
    |Filter(script[..i], SameKind(script[i].subjectType, script[i].className))| + 1
  }

  function CodeAt(script: seq<Call>, i: nat): Result<string, Error>
    requires i < |script|
  {
    GenerateSubjectCode(script[i].subjectType, script[i].className, Rank(script, i), false, 0)
  }

  function Made(call: Call, order: int, code: string): Subject {
    var o := call.options;
    Subject(Or(o.title, call.title), call.subjectType, call.className, Or(o.orderIndex, order), code,
            Or(o.hasComponents, false), o.componentGroup, Or(o.isActive, true))
  }

  /** The subjects of a script in closed form: the i-th depends only on its own
      call, its position and its rank. */
  ghost predicate Built(script: seq<Call>, subjects: seq<Subject>) {
    |subjects| == |script| &&
    forall i | 0 <= i < |script| ::
      CodeAt(script, i).Ok? && subjects[i] == Made(script[i], i + 1, CodeAt(script, i).value) &&
      WellLabelled(subjects[i].title, subjects[i].hasComponents, subjects[i].componentGroup)
  }

  /** What a caller can check of one call of a script. */
  ghost predicate Proper(script: seq<Call>, i: nat)
    requires i < |script|
  {
    var c := script[i];
    PrefixOf(c.subjectType).Some? && NumberOf(c.className).Some? && Rank(script, i) < 36 &&
    WellLabelled(Or(c.options.title, c.title), Or(c.options.hasComponents, false), c.options.componentGroup)
  }

  lemma {:induction false} FilterAlike<S, T>(s: seq<S>, t: seq<T>, p: S -> bool, q: T -> bool)
    requires |s| == |t| && forall i | 0 <= i < |s| :: p(s[i]) == q(t[i])
    ensures |Filter(s, p)| == |Filter(t, q)|
  {
    if s != [] {
      FilterAlike(s[..|s| - 1], t[..|t| - 1], p, q);
    }
  }

  /** The builder counts its own subjects, which amounts to ranking the calls. */
  lemma CountIsRank(script: seq<Call>, subjects: seq<Subject>, call: Call)
    requires Built(script, subjects)
    ensures |Filter(subjects, OfKind(call.subjectType, call.className))| + 1 == Rank(script + [call], |script|)
  {
    assert (script + [call])[..|script|] == script;
    FilterAlike(subjects, script, OfKind(call.subjectType, call.className), SameKind(call.subjectType, call.className));
  }

  lemma PrefixKeepsRank(script: seq<Call>, call: Call, i: nat)
    requires i < |script|
    ensures Rank(script + [call], i) == Rank(script, i)
  {
    assert (script + [call])[..i] == script[..i];
  }

  lemma BuiltPush(script: seq<Call>, subjects: seq<Subject>, call: Call, subject: Subject)
    requires Built(script, subjects)
    requires CodeAt(script + [call], |script|).Ok?
    requires subject == Made(call, |script| + 1, CodeAt(script + [call], |script|).value)
    requires WellLabelled(subject.title, subject.hasComponents, subject.componentGroup)
    ensures Built(script + [call], subjects + [subject])
  {
    forall i | 0 <= i < |script| ensures CodeAt(script + [call], i) == CodeAt(script, i) {
      PrefixKeepsRank(script, call, i);
    }
  }

  lemma RanksGrow(script: seq<Call>, i: nat, j: nat)
    requires i < j < |script|
    requires SameKind(script[j].subjectType, script[j].className)(script[i])
    ensures Rank(script, i) < Rank(script, j)
  {
    var kind := SameKind(script[j].subjectType, script[j].className);
    assert script[..i + 1] == script[..i] + [script[i]];
    FilterPush(script[..i], script[i], kind);
    assert script[..j] == script[..i + 1] + script[i + 1..j];
    FilterConcat(script[..i + 1], script[i + 1..j], kind);
  }

  /** The ranks of a kind have no gaps. */
  lemma {:induction false} RankIsReached(script: seq<Call>, n: nat, kind: Call -> bool, rank: nat)
    requires n <= |script| && 0 < rank <= |Filter(script[..n], kind)|
    ensures exists i | 0 <= i < n :: kind(script[i]) && |Filter(script[..i], kind)| + 1 == rank
  {
    assert script[..n] == script[..n - 1] + [script[n - 1]];
    FilterPush(script[..n - 1], script[n - 1], kind);
    if rank <= |Filter(script[..n - 1], kind)| {
      RankIsReached(script, n - 1, kind, rank);
    } else {
      assert kind(script[n - 1]);
    }
  }

  lemma NoCodeAtRank36(script: seq<Call>, i: nat)
    requires i < |script| && Rank(script, i) == 36
    ensures CodeAt(script, i).Err?
  {
    SequencesUpTo35(Rank(script, i));
    CodeAcceptedIff(script[i].subjectType, script[i].className, Rank(script, i), false, 0);
  }

  lemma RanksBelow(script: seq<Call>, i: nat, rank: nat)
    requires i < |script| && 0 < rank <= Rank(script, i)
    ensures exists j: nat | j <= i :: Rank(script, j) == rank
  {
    var kind := SameKind(script[i].subjectType, script[i].className);
    assert script[..i + 1] == script[..i] + [script[i]];
    FilterPush(script[..i], script[i], kind);
    RankIsReached(script, i + 1, kind, rank);
    var j: nat :| j < i + 1 && kind(script[j]) && |Filter(script[..j], kind)| + 1 == rank;
    assert Rank(script, j) == rank;
  }

  /** A script that has a code everywhere has no 36th subject of a kind: that one
      would have been refused. */
  lemma BuiltRanks(script: seq<Call>, subjects: seq<Subject>, i: nat)
    requires Built(script, subjects) && i < |script|
    ensures 0 < Rank(script, i) < 36
  {
    if Rank(script, i) >= 36 {
      RanksBelow(script, i, 36);
      var j: nat :| j <= i && Rank(script, j) == 36;
      NoCodeAtRank36(script, j);
    }
  }

  /** The exact condition for a script to be built: known types and classes,
      labels, groups, and at most 35 calls of a kind. */
  lemma BuiltIff(script: seq<Call>)
    ensures (exists subjects :: Built(script, subjects)) <==> forall i | 0 <= i < |script| :: Proper(script, i)
  {
    forall subjects, i | Built(script, subjects) && 0 <= i < |script| ensures Proper(script, i) {
      BuiltRanks(script, subjects, i);
      assert CodeAt(script, i).Ok?;
    }
    if forall i | 0 <= i < |script| :: Proper(script, i) {
      forall i | 0 <= i < |script| ensures CodeAt(script, i).Ok? {
        assert Proper(script, i);
        SequencesUpTo35(Rank(script, i));
        CodeAcceptedIff(script[i].subjectType, script[i].className, Rank(script, i), false, 0);
      }
      var subjects := seq(|script|, i requires 0 <= i < |script| => Made(script[i], i + 1, CodeAt(script, i).value));
      assert Built(script, subjects) by {
        forall i | 0 <= i < |script|
          ensures WellLabelled(subjects[i].title, subjects[i].hasComponents, subjects[i].componentGroup)
        {
          assert Proper(script, i);
        }
      }
    }
  }

  /** The earlier calls for the same type and class. */
  function EarlierOfKind(script: seq<Call>, i: nat): set<int>
    requires i < |script|
  {
    set j | 0 <= j < i && script[j].subjectType == script[i].subjectType && script[j].className == script[i].className
  }

  lemma RankCounts(script: seq<Call>, i: nat)
    requires i < |script|
    ensures Rank(script, i) == 1 + |EarlierOfKind(script, i)|
  {
    var kind, front := SameKind(script[i].subjectType, script[i].className), script[..i];
    FilterSize(front, kind);
    assert PassingAt(front, kind) == EarlierOfKind(script, i);
  }

  /** The code of a built subject, and its fields with their defaults. */
  lemma BuiltFields(script: seq<Call>, subjects: seq<Subject>, i: nat)
    requires Built(script, subjects) && i < |script|
    ensures var c, s := script[i], subjects[i];
      && s.subjectType == c.subjectType && s.className == c.className
      && GenerateSubjectCode(c.subjectType, c.className, 1 + |EarlierOfKind(script, i)|, false, 0) == Ok(s.code)
      && s.title == (if c.options.title.Some? then c.options.title.value else c.title)
      && s.orderIndex == (if c.options.orderIndex.Some? then c.options.orderIndex.value else i + 1)
      && s.hasComponents == (c.options.hasComponents == Some(true))
      && s.isActive == (c.options.isActive != Some(false))
      && s.componentGroup == c.options.componentGroup
  {
    RankCounts(script, i);
    assert CodeAt(script, i).Ok?;
  }

  /** What is built is valid, and no two subjects share a code. */
  lemma BuiltIsSound(script: seq<Call>, subjects: seq<Subject>)
    requires Built(script, subjects)
    ensures forall i | 0 <= i < |subjects| :: ValidateSubjectData(subjects[i]).Ok?
    ensures forall i, j | 0 <= i < j < |subjects| :: subjects[i].code != subjects[j].code
    ensures (forall i | 0 <= i < |script| :: script[i].options.orderIndex == None) ==>
      forall i | 0 <= i < |subjects| :: subjects[i].orderIndex == i + 1
  {
    forall i | 0 <= i < |subjects| ensures ValidateSubjectData(subjects[i]).Ok? {
      assert CodeAt(script, i).Ok?;
      GeneratedIsValid(subjects[i], Rank(script, i));
    }
    forall i, j | 0 <= i < j < |subjects| ensures subjects[i].code != subjects[j].code {
      CodesDiffer(script, subjects, i, j);
    }
  }

  lemma CodesDiffer(script: seq<Call>, subjects: seq<Subject>, i: nat, j: nat)
    requires Built(script, subjects) && i < j < |script|
    ensures subjects[i].code != subjects[j].code
  {
    var c, d := script[i], script[j];
    var m, n := Rank(script, i), Rank(script, j);
    BuiltRanks(script, subjects, i);
    BuiltRanks(script, subjects, j);
    SequencesUpTo35(m);
    SequencesUpTo35(n);
    if SameKind(d.subjectType, d.className)(c) {
      RanksGrow(script, i, j);
    }
    assert CodeAt(script, i).Ok? && CodeAt(script, j).Ok?;
    SameCodeIff(c.subjectType, c.className, m, d.subjectType, d.className, n);
  }
}
