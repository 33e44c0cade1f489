/** Spreadsheet column names: bijective numeration in base 26. */
module ColumnName {

  predicate IsLetters(s: string) {
    forall i | 0 <= i < |s| :: 'A' <= s[i] <= 'Z'
  }

  function Letter(d: nat): char
    requires d < 26
  {
    (65 + d) as char
  }

  /** The number a name stands for when A is 1 and Z is 26. */
  function Number(s: string): nat
    requires IsLetters(s)
  {
    if s == "" then 0 else 26 * Number(s[..|s| - 1]) + (s[|s| - 1] as int - 64)
  }

  /** The name of a number, last letter last; the program below builds it from its end. */
  function NameOf(value: nat): (s: string)
    ensures IsLetters(s)
    ensures s == "" <==> value == 0
  {
    if value == 0 then "" else NameOf((value - 1) / 26) + [Letter((value - 1) % 26)]
  }

  lemma {:induction false} NumberOfName(value: nat)
    ensures Number(NameOf(value)) == value
  {
    if value > 0 {
      NumberOfName((value - 1) / 26);
      var s := NameOf(value);
      assert s[..|s| - 1] == NameOf((value - 1) / 26);
    }
  }

  /** Two names for the same number are the same name. */
  lemma {:induction false} NumberIsInjective(s: string, t: string)
    requires IsLetters(s) && IsLetters(t) && Number(s) == Number(t)
    ensures s == t
  {
    if s != "" && t != "" {
      NumberIsInjective(s[..|s| - 1], t[..|t| - 1]);
      assert s == s[..|s| - 1] + [s[|s| - 1]] && t == t[..|t| - 1] + [t[|t| - 1]];
    }
  }

  /** Every name is the name of its number, so numbers and names match one to one. */
  lemma {:induction false} NameOfNumber(s: string)
    requires IsLetters(s)
    ensures NameOf(Number(s)) == s
  {
    NumberOfName(Number(s));
    NumberIsInjective(NameOf(Number(s)), s);
  }

  lemma {:induction false} NameStep(value: nat, tail: string)
    requires value > 0
    ensures NameOf(value) + tail == NameOf((value - 1) / 26) + ([Letter((value - 1) % 26)] + tail)
  {
  }

  /** The name of column `index`, counted from 0. */
  method Name(index: nat) returns (name: string)
    ensures name != "" && IsLetters(name) && Number(name) == index + 1
    ensures name == NameOf(index + 1)
  {
    name := "";
    var value: nat := index + 1;
    ghost var full := NameOf(index + 1);
    while value > 0
      invariant NameOf(value) + name == full
    {
      NameStep(value, name);
      name := [Letter((value - 1) % 26)] + name;
      value := (value - 1) / 26;
    }
    assert "" + name == name;
    NumberOfName(index + 1);
  }
}
