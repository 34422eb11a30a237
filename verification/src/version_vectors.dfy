/** The version-number test vectors as facts about the model. A parsed text
    is written as its two fields around the '.'; a pair the test leaves
    default-constructed is `Zero`. */
module VersionVectors {
  import opened Wrappers
  import opened Version
  import Decimal

  /** A valid field's digits, checked through their prefix value. */
  lemma FieldIs(t: string, digits: string, n: nat, v: U32)
    requires t == digits || t == "-" + digits
    requires 0 < |digits| && Decimal.AllDigits(digits)
    requires Decimal.PrefixValue(digits, |digits|) == n
    requires t == digits ==> v == n % Modulus
    requires t != digits ==> v == (Modulus - n % Modulus) % Modulus
    ensures ValidField(t) && FieldValue(t) == v
  {
    if t != digits {
      assert t[1..] == digits;
    }
  }

  lemma Parses01()
    ensures FromString("0" + "." + "0") == Some(VersionNumber(0, 0))
  {
    FieldIs("0", "0", 0, 0);
    FieldIs("0", "0", 0, 0);
    FromStringOf("0", "0");
  }

  lemma Parses02()
    ensures FromString("0" + "." + "1") == Some(VersionNumber(0, 1))
  {
    FieldIs("0", "0", 0, 0);
    FieldIs("1", "1", 1, 1);
    FromStringOf("0", "1");
  }

  lemma Parses03()
    ensures FromString("0" + "." + "65535") == Some(VersionNumber(0, 65535))
  {
    FieldIs("0", "0", 0, 0);
    assert Decimal.PrefixValue("65535", 5) == 65535;
    FieldIs("65535", "65535", 65535, 65535);
    FromStringOf("0", "65535");
  }

  lemma Parses04()
    ensures FromString("0" + "." + "4294967295") == Some(VersionNumber(0, 4294967295))
  {
    FieldIs("0", "0", 0, 0);
    FieldIs("4294967295", "4294967295", 4294967295, 4294967295);
    FromStringOf("0", "4294967295");
  }

  lemma Parses05()
    ensures FromString("0" + "." + "4294967296") == Some(VersionNumber(0, 0))
  {
    FieldIs("0", "0", 0, 0);
    FieldIs("4294967296", "4294967296", 4294967296, 0);
    FromStringOf("0", "4294967296");
  }

  lemma Parses06()
    ensures FromString("1" + "." + "1") == Some(VersionNumber(1, 1))
  {
    FieldIs("1", "1", 1, 1);
    FieldIs("1", "1", 1, 1);
    FromStringOf("1", "1");
  }

  lemma Parses07()
    ensures FromString("65535" + "." + "65535") == Some(VersionNumber(65535, 65535))
  {
    assert Decimal.PrefixValue("65535", 5) == 65535;
    FieldIs("65535", "65535", 65535, 65535);
    FieldIs("65535", "65535", 65535, 65535);
    FromStringOf("65535", "65535");
  }

  lemma Parses08()
    ensures FromString("4294967295" + "." + "4294967295") == Some(VersionNumber(4294967295, 4294967295))
  {
    FieldIs("4294967295", "4294967295", 4294967295, 4294967295);
    FieldIs("4294967295", "4294967295", 4294967295, 4294967295);
    FromStringOf("4294967295", "4294967295");
  }

  lemma Parses09()
    ensures FromString("4294967296" + "." + "4294967296") == Some(VersionNumber(0, 0))
  {
    FieldIs("4294967296", "4294967296", 4294967296, 0);
    FieldIs("4294967296", "4294967296", 4294967296, 0);
    FromStringOf("4294967296", "4294967296");
  }

  lemma Parses10()
    ensures FromString("-0" + "." + "-0") == Some(VersionNumber(0, 0))
  {
    FieldIs("-0", "0", 0, 0);
    FieldIs("-0", "0", 0, 0);
    FromStringOf("-0", "-0");
  }

  lemma Parses11()
    ensures FromString("-1" + "." + "-1") == Some(VersionNumber(4294967295, 4294967295))
  {
    FieldIs("-1", "1", 1, 4294967295);
    FieldIs("-1", "1", 1, 4294967295);
    FromStringOf("-1", "-1");
  }

  lemma Rejects01()
    ensures FromString("") == None
    ensures FromStringOrZero("") == Zero
  {
  }

  lemma Rejects02()
    ensures FromString("1.2.3") == None
    ensures FromStringOrZero("1.2.3") == Zero
  {
    assert "1.2.3"[2..][1] == '.';
  }

  lemma Rejects03()
    ensures FromString("asd.fff") == None
    ensures FromStringOrZero("asd.fff") == Zero
  {
  }

  lemma Rejects04()
    ensures FromString(".4294967295") == None
    ensures FromStringOrZero(".4294967295") == Zero
  {
  }

  lemma Rejects05()
    ensures FromString("0.") == None
    ensures FromStringOrZero("0.") == Zero
  {
  }

  lemma Rejects06()
    ensures FromString(".") == None
    ensures FromStringOrZero(".") == Zero
  {
  }

  lemma Rejects07()
    ensures FromString("a.b") == None
    ensures FromStringOrZero("a.b") == Zero
  {
  }

  lemma Rejects08()
    ensures FromString("-9123") == None
    ensures FromStringOrZero("-9123") == Zero
  {
  }

  lemma PrintsDefault()
    ensures ToString(Zero) == "0.0"
  {
  }

  lemma Prints01()
    ensures ToString(VersionNumber(0, 0)) == "0" + "." + "0"
  {
    assert Decimal.PrefixValue("0", 1) == 0;
    assert Decimal.PrefixValue("0", 1) == 0;
    Decimal.ToDecimalOfValue("0");
    Decimal.ToDecimalOfValue("0");
  }

  lemma Prints02()
    ensures ToString(VersionNumber(0, 1)) == "0" + "." + "1"
  {
    assert Decimal.PrefixValue("0", 1) == 0;
    assert Decimal.PrefixValue("1", 1) == 1;
    Decimal.ToDecimalOfValue("0");
    Decimal.ToDecimalOfValue("1");
  }

  lemma Prints03()
    ensures ToString(VersionNumber(0, 65535)) == "0" + "." + "65535"
  {
    assert Decimal.PrefixValue("0", 1) == 0;
    assert Decimal.PrefixValue("65535", 5) == 65535;
    Decimal.ToDecimalOfValue("0");
    Decimal.ToDecimalOfValue("65535");
  }

  lemma Prints04()
    ensures ToString(VersionNumber(0, 4294967295)) == "0" + "." + "4294967295"
  {
    assert Decimal.PrefixValue("0", 1) == 0;
    assert Decimal.PrefixValue("4294967295", 10) == 4294967295;
    Decimal.ToDecimalOfValue("0");
    Decimal.ToDecimalOfValue("4294967295");
  }

  lemma Prints05()
    ensures ToString(VersionNumber(1, 1)) == "1" + "." + "1"
  {
    assert Decimal.PrefixValue("1", 1) == 1;
    assert Decimal.PrefixValue("1", 1) == 1;
    Decimal.ToDecimalOfValue("1");
    Decimal.ToDecimalOfValue("1");
  }

  lemma Prints06()
    ensures ToString(VersionNumber(65535, 65535)) == "65535" + "." + "65535"
  {
    assert Decimal.PrefixValue("65535", 5) == 65535;
    assert Decimal.PrefixValue("65535", 5) == 65535;
    Decimal.ToDecimalOfValue("65535");
    Decimal.ToDecimalOfValue("65535");
  }

  lemma Prints07()
    ensures ToString(VersionNumber(4294967295, 4294967295)) == "4294967295" + "." + "4294967295"
  {
    assert Decimal.PrefixValue("4294967295", 10) == 4294967295;
    assert Decimal.PrefixValue("4294967295", 10) == 4294967295;
    Decimal.ToDecimalOfValue("4294967295");
    Decimal.ToDecimalOfValue("4294967295");
  }

  /** The five comparison results of the test table, in its column order
      (==, >, >=, <, <=). */
  predicate Compares(a: VersionNumber, b: VersionNumber, eq: bool, gt: bool, ge: bool, lt: bool, le: bool) {
    (a == b) == eq && Greater(a, b) == gt && GreaterEq(a, b) == ge && Less(a, b) == lt && LessEq(a, b) == le
  }

  lemma Compares01()
    ensures Compares(VersionNumber(0, 0), VersionNumber(0, 0), true, false, true, false, true)
  {
  }

  lemma Compares02()
    ensures Compares(VersionNumber(4294967295, 4294967295), VersionNumber(4294967295, 4294967295), true, false, true, false, true)
  {
  }

  lemma Compares03()
    ensures Compares(VersionNumber(0, 5), VersionNumber(0, 0), false, true, true, false, false)
  {
  }

  lemma Compares04()
    ensures Compares(VersionNumber(5, 0), VersionNumber(0, 0), false, true, true, false, false)
  {
  }

  lemma Compares05()
    ensures Compares(VersionNumber(5, 5), VersionNumber(0, 10), false, true, true, false, false)
  {
  }

  lemma Compares06()
    ensures Compares(VersionNumber(5, 10), VersionNumber(5, 5), false, true, true, false, false)
  {
  }

  lemma Compares07()
    ensures Compares(VersionNumber(0, 0), VersionNumber(0, 1), false, false, false, true, true)
  {
  }

  lemma Compares08()
    ensures Compares(VersionNumber(0, 5), VersionNumber(0, 10), false, false, false, true, true)
  {
  }

  lemma Compares09()
    ensures Compares(VersionNumber(5, 0), VersionNumber(10, 0), false, false, false, true, true)
  {
  }

  lemma Compares10()
    ensures Compares(VersionNumber(5, 5), VersionNumber(10, 0), false, false, false, true, true)
  {
  }

  lemma Compares11()
    ensures Compares(VersionNumber(5, 5), VersionNumber(10, 10), false, false, false, true, true)
  {
  }
}
