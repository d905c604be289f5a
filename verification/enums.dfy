/** `createEnum`: a frozen JavaScript object that maps every index and every
    name of a list of names to the name itself, plus a `length` property.

    JavaScript property keys are strings, so the index `i` is stored under its
    decimal numeral. A name that is itself such a numeral, or is `"length"`,
    shares a key with another property, and the later write wins. The name
    `"__proto__"` stores nothing: the object starts as `{}`, and assigning a
    string to that key reaches the setter inherited from `Object.prototype`,
    which ignores values that are not objects. */
module Enums {

  /** A property value of an enum object: the names are strings, `length` is a number. */
  datatype Value = Str(s: string) | Num(n: nat)

  /** An enum object as its property table. */
  type EnumObject = map<string, Value>

  const LengthKey: string := "length"

  /** The key whose assignment on a plain object goes to an inherited setter. */
  const ProtoKey: string := "__proto__"

  /** `e[k] = v` on an object created by `{}`. */
  function SetProperty(e: EnumObject, k: string, v: Value): (e2: EnumObject)
    ensures k != ProtoKey ==> k in e2 && e2[k] == v
    ensures k == ProtoKey ==> e2 == e
    ensures forall k' :: k' != k ==> (k' in e2 <==> k' in e) && (k' in e ==> e2[k'] == e[k'])
  {
    if k == ProtoKey then e else e[k := v]
  }

  predicate IsDigit(ch: char) {
    '0' <= ch <= '9'
  }

  predicate IsNumeral(s: string) {
    forall k :: 0 <= k < |s| ==> IsDigit(s[k])
  }

  function DigitChar(d: nat): (ch: char)
    requires d < 10
    ensures IsDigit(ch)
  {
    ('0' as int + d) as char
  }

  function DigitValue(ch: char): (d: nat)
    requires IsDigit(ch)
    ensures d < 10
  {
    ch as int - '0' as int
  }

  /** The property key JavaScript uses for the array index `n`: its decimal numeral. */
  function IndexKey(n: nat): (s: string)
    ensures |s| > 0 && IsNumeral(s)
  {
    if n < 10 then [DigitChar(n)] else IndexKey(n / 10) + [DigitChar(n % 10)]
  }

  /** The number a decimal numeral denotes (least significant digit last). */
  function NumeralValue(s: string): nat
    requires IsNumeral(s)
  {
    if |s| == 0 then 0 else 10 * NumeralValue(s[..|s| - 1]) + DigitValue(s[|s| - 1])
  }

  /** Reading back the key of index `n` gives `n`. */
  lemma {:induction false} NumeralValueOfIndexKey(n: nat)
    ensures NumeralValue(IndexKey(n)) == n
  {
    if n >= 10 {
      var s := IndexKey(n / 10);
      var t := s + [DigitChar(n % 10)];
      assert t[..|t| - 1] == s;
      NumeralValueOfIndexKey(n / 10);
    } else {
      assert [DigitChar(n)][..0] == [];
    }
  }

  /** Distinct indices are stored under distinct keys. */
  lemma IndexKeyInjective(i: nat, j: nat)
    ensures IndexKey(i) == IndexKey(j) ==> i == j
  {
    NumeralValueOfIndexKey(i);
    NumeralValueOfIndexKey(j);
  }

  /** A name that does not start with a digit is no index key. */
  lemma NotIndexKey(s: string, n: nat)
    requires |s| > 0 && !IsDigit(s[0])
    ensures s != IndexKey(n)
  {
  }

  /** No name of `values` shares a key with an index property or with
      `length`, and none is the key the inherited setter swallows. */
  predicate NamesAvoidReservedKeys(values: seq<string>) {
    && LengthKey !in values
    && ProtoKey !in values
    && forall i, j :: 0 <= i < |values| && 0 <= j < |values| ==> values[i] != IndexKey(j)
  }

  /** The keys of the index properties `0 .. n - 1`. */
  function IndexKeys(n: nat): (ks: set<string>)
    ensures forall j :: 0 <= j < n ==> IndexKey(j) in ks
  {
    set j | 0 <= j < n :: IndexKey(j)
  }

  /** The names of `values` that become own properties. */
  function StoredNames(values: seq<string>): (ns: set<string>)
    ensures forall v :: v in ns <==> v in values && v != ProtoKey
  {
    set v | v in values && v != ProtoKey
  }

  /** One round of the loop of `CreateEnum` adds the key of index `i` and,
      unless it is `"__proto__"`, the name `values[i]`. */
  lemma CreateEnumStepKeys(values: seq<string>, i: nat, e: EnumObject)
    requires i < |values| && e.Keys == IndexKeys(i) + StoredNames(values[..i])
    ensures SetProperty(SetProperty(e, IndexKey(i), Str(values[i])), values[i], Str(values[i])).Keys
            == IndexKeys(i + 1) + StoredNames(values[..i + 1])
  {
    NotIndexKey(ProtoKey, i);
    assert values[..i + 1] == values[..i] + [values[i]];
    assert IndexKeys(i + 1) == IndexKeys(i) + {IndexKey(i)};
  }

  /** One round of the loop of `CreateEnum` stores only names of `values`. */
  lemma CreateEnumStepValues(values: seq<string>, i: nat, e: EnumObject)
    requires i < |values| && forall k :: k in e ==> e[k].Str? && e[k].s in values[..i]
    ensures var e2 := SetProperty(SetProperty(e, IndexKey(i), Str(values[i])), values[i], Str(values[i]));
            forall k :: k in e2 ==> e2[k].Str? && e2[k].s in values[..i + 1]
  {
  }

  /** One round of the loop of `CreateEnum` keeps the earlier lookups and adds
      those of index `i`, when no name collides with a reserved key. */
  lemma CreateEnumStepLookups(values: seq<string>, i: nat, e: EnumObject)
    requires i < |values| && NamesAvoidReservedKeys(values)
    requires forall j :: 0 <= j < i ==> IndexKey(j) in e && e[IndexKey(j)] == Str(values[j]) && values[j] in e && e[values[j]] == Str(values[j])
    ensures var e2 := SetProperty(SetProperty(e, IndexKey(i), Str(values[i])), values[i], Str(values[i]));
            forall j :: 0 <= j < i + 1 ==> IndexKey(j) in e2 && e2[IndexKey(j)] == Str(values[j]) && values[j] in e2 && e2[values[j]] == Str(values[j])
  {
    var e1 := SetProperty(e, IndexKey(i), Str(values[i]));
    var e2 := SetProperty(e1, values[i], Str(values[i]));
    NotIndexKey(ProtoKey, i);
    assert values[i] != ProtoKey;
    forall j | 0 <= j < i + 1
      ensures IndexKey(j) in e2 && e2[IndexKey(j)] == Str(values[j]) && values[j] in e2 && e2[values[j]] == Str(values[j])
    {
      if j < i {
        IndexKeyInjective(i, j);
        assert values[i] != IndexKey(j) && values[j] != IndexKey(i);
      } else {
        assert values[i] != IndexKey(i);
      }
    }
  }

  /** Builds the enum object of `values`: for each index `i` in order, first
      the index property and then the name property, then `length`. */
  method CreateEnum(values: seq<string>) returns (e: EnumObject)
    ensures LengthKey in e && e[LengthKey] == Num(|values|)
    ensures e.Keys == IndexKeys(|values|) + StoredNames(values) + {LengthKey}
    ensures forall k :: k in e && k != LengthKey ==> e[k].Str? && e[k].s in values
    ensures NamesAvoidReservedKeys(values) ==>
              forall i :: 0 <= i < |values| ==> e[IndexKey(i)] == Str(values[i]) && e[values[i]] == Str(values[i])
  {
    e := map[];
    var i := 0;
    while i < |values|
      invariant i <= |values|
      invariant e.Keys == IndexKeys(i) + StoredNames(values[..i])
      invariant forall k :: k in e ==> e[k].Str? && e[k].s in values[..i]
      invariant NamesAvoidReservedKeys(values) ==>
                  forall j :: 0 <= j < i ==>
                    IndexKey(j) in e && e[IndexKey(j)] == Str(values[j]) && values[j] in e && e[values[j]] == Str(values[j])
    {
      CreateEnumStepKeys(values, i, e);
      CreateEnumStepValues(values, i, e);
      if NamesAvoidReservedKeys(values) {
        CreateEnumStepLookups(values, i, e);
      }
      e := SetProperty(e, IndexKey(i), Str(values[i]));
      e := SetProperty(e, values[i], Str(values[i]));
      i := i + 1;
    }
    assert values[..i] == values;
    forall j | 0 <= j < |values| {
      NotIndexKey(LengthKey, j);
    }
    e := SetProperty(e, LengthKey, Num(|values|));
  }

  /** The names of the four enums the board uses. */
  const TerrainNames: seq<string> := ["Empty", "Hole", "Wall"]
  const TileUINames: seq<string> := ["NotClickable", "ClickablePiece", "SelectedPiece", "MoveableTile", "AttackableTile"]
  const AlignmentNames: seq<string> := ["Player", "Enemy"]
  const GamePhaseNames: seq<string> := ["PlayerTurnStart", "UnitSelected", "UnitAnimation", "EndUnitTurn", "EnemyTurn"]

  /** The four enums of the board are free of key collisions, so every index
      and every name of theirs looks up the name. */
  lemma SourceEnumsAvoidReservedKeys()
    ensures NamesAvoidReservedKeys(TerrainNames)
    ensures NamesAvoidReservedKeys(TileUINames)
    ensures NamesAvoidReservedKeys(AlignmentNames)
    ensures NamesAvoidReservedKeys(GamePhaseNames)
  {
  }
}
