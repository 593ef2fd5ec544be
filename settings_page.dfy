/** The settings page's own logic: the CPF check-digit test, the payload the personal-data tab
    sends, the case-insensitive test and filter over the linked social accounts, and when the save
    button is shown.

    A CPF (the Brazilian taxpayer number) is eleven decimal digits; the last two are check digits
    computed modulo 11 from the ones before them. */
module SettingsPage {
  import opened Wrappers
  import opened Text
  import opened UserService

  // isValidCPF

  predicate AllDigits(d: string) {
    forall i | 0 <= i < |d| :: IsDigit(d[i])
  }

  /** The sum of the first `n` digits of `d`, digit `i` weighted by `top - i`. */
  function WeightedSum(d: string, n: nat, top: int): (r: int)
    requires n <= |d| && AllDigits(d) && n <= top
    ensures r >= 0
  {
    if n == 0 then 0 else WeightedSum(d, n - 1, top) + DigitValue(d[n - 1]) * (top - (n - 1))
  }

  /** The check digit for a weighted sum: eleven minus its remainder modulo 11, with 10 and 11 read as 0. */
  function CheckDigit(sum: int): (r: int)
    requires sum >= 0
    ensures 0 <= r <= 9
  {
    var remainder := 11 - sum % 11;
    if remainder > 9 then 0 else remainder
  }

  /** `/^(\d)\1{10}$/`: eleven copies of one digit. */
  predicate Repdigit(d: string) {
    |d| == 11 && forall i | 0 <= i < 11 :: d[i] == d[0]
  }

  /** The CPF rule on the digits of `s`: exactly eleven, not all the same, and both check digits right. */
  predicate ValidCPF(s: string) {
    var d := DigitsOf(s);
    && |d| == 11
    && !Repdigit(d)
    && CheckDigit(WeightedSum(d, 9, 10)) == DigitValue(d[9])
    && CheckDigit(WeightedSum(d, 10, 11)) == DigitValue(d[10])
  }

  /** `isValidCPF`: strips the non-digits, tests the length and the repeated digit, then accumulates
      the two weighted sums in counted loops and compares each check digit as soon as it is known. */
  method IsValidCPF(input: string) returns (b: bool)
    ensures b == ValidCPF(input)
  {
    var cpf := DigitsOf(input);
    if |cpf| != 11 {
      return false;
    }
    if Repdigit(cpf) {
      return false;
    }
    var sum := 0;
    for i := 0 to 9
      invariant sum == WeightedSum(cpf, i, 10)
    {
      sum := sum + DigitValue(cpf[i]) * (10 - i);
    }
    var remainder := 11 - sum % 11;
    var digit1 := if remainder > 9 then 0 else remainder;
    if digit1 != DigitValue(cpf[9]) {
      return false;
    }
    sum := 0;
    for i := 0 to 10
      invariant sum == WeightedSum(cpf, i, 11)
    {
      sum := sum + DigitValue(cpf[i]) * (11 - i);
    }
    remainder := 11 - sum % 11;
    var digit2 := if remainder > 9 then 0 else remainder;
    if digit2 != DigitValue(cpf[10]) {
      return false;
    }
    return true;
  }

  /** The check digit agrees with the usual statement of the rule: ten times the sum, modulo 11,
      modulo 10. */
  lemma CheckDigitStandardForm(sum: int)
    requires sum >= 0
    ensures CheckDigit(sum) == (10 * sum) % 11 % 10
  {
    var q := sum / 11;
    var r := sum % 11;
    assert 10 * sum == 11 * (10 * q) + 10 * r;
    assert (10 * sum) % 11 == (10 * r) % 11;
    assert r == 0 || r == 1 || r == 2 || r == 3 || r == 4 || r == 5 || r == 6 || r == 7 || r == 8 || r == 9 || r == 10;
  }

  lemma {:induction false} DigitsOfAppend(a: string, b: string)
    ensures DigitsOf(a + b) == DigitsOf(a) + DigitsOf(b)
  {
    if a != [] {
      assert (a + b)[1..] == a[1..] + b;
      DigitsOfAppend(a[1..], b);
    } else {
      assert a + b == b;
    }
  }

  /** Punctuation is ignored: inserting any non-digit, such as the `.` and `-` of `ddd.ddd.ddd-dd`,
      anywhere in the input does not change the verdict. */
  lemma NonDigitIgnored(a: string, c: char, b: string)
    requires !IsDigit(c)
    ensures ValidCPF(a + [c] + b) == ValidCPF(a + b)
  {
    DigitsOfAppend(a + [c], b);
    DigitsOfAppend(a, [c]);
    DigitsOfAppend(a, b);
    assert DigitsOf([c]) == [];
    assert DigitsOf(a + [c] + b) == DigitsOf(a + b);
  }

  /** A number known to be valid. */
  const Example: string := "52998224725"

  /** `d` spells the example, digit by digit. */
  predicate SpellsExample(d: string) {
    && |d| == 11 && d[0] == '5' && d[1] == '2' && d[2] == '9' && d[3] == '9' && d[4] == '8' && d[5] == '2'
    && d[6] == '2' && d[7] == '4' && d[8] == '7' && d[9] == '2' && d[10] == '5'
  }

  lemma ExampleDigits(d: string)
    requires SpellsExample(d)
    ensures AllDigits(d) && DigitsOf(d) == d
  {
    assert forall i | 0 <= i < 11 :: d[i] in "0123456789";
    DigitsOfDigits(d);
  }

  lemma ExampleFirstSum(d: string)
    requires SpellsExample(d) && AllDigits(d)
    ensures WeightedSum(d, 9, 10) == 295
  {
    assert WeightedSum(d, 1, 10) == 50;
    assert WeightedSum(d, 2, 10) == 68;
    assert WeightedSum(d, 3, 10) == 140;
    assert WeightedSum(d, 4, 10) == 203;
    assert WeightedSum(d, 5, 10) == 251;
    assert WeightedSum(d, 6, 10) == 261;
    assert WeightedSum(d, 7, 10) == 269;
    assert WeightedSum(d, 8, 10) == 281;
  }

  lemma ExampleSecondSum(d: string)
    requires SpellsExample(d) && AllDigits(d)
    ensures WeightedSum(d, 10, 11) == 347
  {
    assert WeightedSum(d, 1, 11) == 55;
    assert WeightedSum(d, 2, 11) == 75;
    assert WeightedSum(d, 3, 11) == 156;
    assert WeightedSum(d, 4, 11) == 228;
    assert WeightedSum(d, 5, 11) == 284;
    assert WeightedSum(d, 6, 11) == 296;
    assert WeightedSum(d, 7, 11) == 306;
    assert WeightedSum(d, 8, 11) == 322;
    assert WeightedSum(d, 9, 11) == 343;
  }

  lemma SpelledExampleValid(d: string)
    requires SpellsExample(d)
    ensures ValidCPF(d)
  {
    ExampleDigits(d);
    ExampleFirstSum(d);
    ExampleSecondSum(d);
    assert !Repdigit(d) by {
      assert d[1] != d[0];
    }
    assert CheckDigit(295) == 2 && CheckDigit(347) == 5;
  }

  /** The example passes: its check digits 2 and 5 are the ones the rule computes. */
  lemma ExampleValid()
    ensures ValidCPF(Example)
  {
    SpelledExampleValid(Example);
  }

  lemma {:induction false} WeightedSumConstant(d: string, n: nat, top: int)
    requires n <= |d| && AllDigits(d) && n <= top
    requires forall i | 0 <= i < n :: d[i] == d[0]
    ensures n > 0 ==> WeightedSum(d, n, top) == DigitValue(d[0]) * (n * top - n * (n - 1) / 2)
  {
    if n > 1 {
      WeightedSumConstant(d, n - 1, top);
      var v := DigitValue(d[0]);
      calc {
        WeightedSum(d, n, top);
        v * ((n - 1) * top - (n - 1) * (n - 2) / 2) + v * (top - (n - 1));
        { assert (n - 1) * (n - 2) / 2 + (n - 1) == n * (n - 1) / 2 by {
            assert (n - 1) * (n - 2) + 2 * (n - 1) == n * (n - 1);
          }
        }
        v * (n * top - n * (n - 1) / 2);
      }
    }
  }

  /** Eleven copies of any digit pass both checksums, so only the explicit repeated-digit test keeps
      `00000000000` to `99999999999` out. */
  lemma RepdigitsPassChecksums(d: string)
    requires AllDigits(d) && Repdigit(d)
    ensures CheckDigit(WeightedSum(d, 9, 10)) == DigitValue(d[9])
    ensures CheckDigit(WeightedSum(d, 10, 11)) == DigitValue(d[10])
    ensures !ValidCPF(d)
  {
    WeightedSumConstant(d, 9, 10);
    WeightedSumConstant(d, 10, 11);
    var v := DigitValue(d[0]);
    assert WeightedSum(d, 9, 10) == v * 54;
    assert WeightedSum(d, 10, 11) == v * 65;
    assert v == 0 || v == 1 || v == 2 || v == 3 || v == 4 || v == 5 || v == 6 || v == 7 || v == 8 || v == 9;
    DigitsOfDigits(d);
  }

  lemma {:induction false} WeightedSumPrefix(d: string, e: string, n: nat, top: int)
    requires n <= |d| && n <= |e| && AllDigits(d) && AllDigits(e) && n <= top
    requires d[..n] == e[..n]
    ensures WeightedSum(d, n, top) == WeightedSum(e, n, top)
  {
    if n > 0 {
      assert d[n - 1] == d[..n][n - 1] == e[..n][n - 1] == e[n - 1];
      assert d[..n - 1] == d[..n][..n - 1];
      assert e[..n - 1] == e[..n][..n - 1];
      WeightedSumPrefix(d, e, n - 1, top);
    }
  }

  /** The check digits are determined by the first nine: two valid numbers that agree on those agree
      on all eleven digits. */
  lemma CheckDigitsDetermined(a: string, b: string)
    requires ValidCPF(a) && ValidCPF(b)
    requires DigitsOf(a)[..9] == DigitsOf(b)[..9]
    ensures DigitsOf(a) == DigitsOf(b)
  {
    var d := DigitsOf(a);
    var e := DigitsOf(b);
    WeightedSumPrefix(d, e, 9, 10);
    assert d[9] == e[9];
    assert d[..10] == e[..10] by {
      assert d[..10] == d[..9] + [d[9]];
      assert e[..10] == e[..9] + [e[9]];
    }
    WeightedSumPrefix(d, e, 10, 11);
    assert d[10] == e[10];
    assert d == d[..10] + [d[10]];
    assert e == e[..10] + [e[10]];
  }

  // handleSave on the personal-data tab

  /** The fields of the settings form that the personal-data tab touches. */
  datatype FormData = FormData(name: string, email: string, address: string, cpf: string, interests: string,
                               activities: string, events: string, purchases: string)

  /** What a save does: reports a message and sends nothing, or sends a payload. */
  datatype SaveOutcome = Rejected(message: string) | Send(payload: map<string, string>)

  const MissingToken: string := "Token não encontrado"
  const InvalidCPF: string := "CPF inválido"

  const PayloadKeys: set<string> := {"address", "cpf", "interests", "activities", "events", "purchases"}

  /** `handleSave` on tab `"0"`: with no session token the save fails; a non-empty CPF must pass the
      CPF rule; otherwise the profile fields are sent. `token` is the cookie's value, `""` when absent. */
  function SaveProfile(token: string, form: FormData): (o: SaveOutcome)
    ensures o.Send? <==> token != "" && (form.cpf == "" || ValidCPF(form.cpf))
    ensures token == "" ==> o == Rejected(MissingToken)
    ensures token != "" && form.cpf != "" && !ValidCPF(form.cpf) ==> o == Rejected(InvalidCPF)
    ensures o.Send? ==> o.payload.Keys == PayloadKeys && "name" !in o.payload && "email" !in o.payload
  {
    if token == "" then Rejected(MissingToken)
    else if form.cpf != "" && !ValidCPF(form.cpf) then Rejected(InvalidCPF)
    else Send(map["address" := form.address, "cpf" := form.cpf, "interests" := form.interests,
                  "activities" := form.activities, "events" := form.events, "purchases" := form.purchases])
  }

  /** The payload carries each profile field as it is in the form, and the name and email are never
      sent whatever they hold. */
  lemma SaveProfilePayload(token: string, form: FormData, name: string, email: string)
    requires SaveProfile(token, form).Send?
    ensures var p := SaveProfile(token, form).payload;
      && p["address"] == form.address && p["cpf"] == form.cpf && p["interests"] == form.interests
      && p["activities"] == form.activities && p["events"] == form.events && p["purchases"] == form.purchases
    ensures SaveProfile(token, form.(name := name, email := email)) == SaveProfile(token, form)
  {
  }

  // The linked social accounts

  /** `isSocialLinked`: some linked account's provider equals `provider` ignoring case. */
  function IsSocialLinked(accounts: seq<SocialAccount>, provider: string): (b: bool)
    ensures b <==> exists i | 0 <= i < |accounts| :: EqualsIgnoreCase(accounts[i].provider, provider)
  {
    if accounts == [] then false
    else if EqualsIgnoreCase(accounts[0].provider, provider) then true
    else
      var rest := IsSocialLinked(accounts[1..], provider);
      assert forall i | 1 <= i < |accounts| :: accounts[i] == accounts[1..][i - 1];
      rest
  }

  /** The unlink filter: the accounts whose provider does not match `provider` ignoring case, in order. */
  function Unlinked(accounts: seq<SocialAccount>, provider: string): (r: seq<SocialAccount>)
    ensures |r| <= |accounts|
    ensures forall a | a in r :: a in accounts && !EqualsIgnoreCase(a.provider, provider)
    ensures forall a | a in accounts && !EqualsIgnoreCase(a.provider, provider) :: a in r
  {
    if accounts == [] then []
    else
      var rest := Unlinked(accounts[1..], provider);
      assert forall a | a in accounts :: a == accounts[0] || a in accounts[1..];
      if EqualsIgnoreCase(accounts[0].provider, provider) then rest else [accounts[0]] + rest
  }

  /** The filter works element by element, so it keeps the relative order of what it keeps. */
  lemma {:induction false} UnlinkedAppend(a: seq<SocialAccount>, b: seq<SocialAccount>, provider: string)
    ensures Unlinked(a + b, provider) == Unlinked(a, provider) + Unlinked(b, provider)
  {
    if a == [] {
      assert a + b == b;
    } else {
      assert (a + b)[0] == a[0];
      assert (a + b)[1..] == a[1..] + b;
      UnlinkedAppend(a[1..], b, provider);
    }
  }

  /** After unlinking, the provider no longer shows as linked under any spelling, every other
      provider shows exactly as before, and unlinking again changes nothing. */
  lemma UnlinkEffect(accounts: seq<SocialAccount>, provider: string, spelling: string, other: string)
    requires EqualsIgnoreCase(spelling, provider) && !EqualsIgnoreCase(other, provider)
    ensures !IsSocialLinked(Unlinked(accounts, provider), spelling)
    ensures IsSocialLinked(Unlinked(accounts, provider), other) == IsSocialLinked(accounts, other)
    ensures Unlinked(Unlinked(accounts, provider), provider) == Unlinked(accounts, provider)
  {
    var r := Unlinked(accounts, provider);
    if IsSocialLinked(accounts, other) {
      var i :| 0 <= i < |accounts| && EqualsIgnoreCase(accounts[i].provider, other);
      assert accounts[i] in accounts;
      var j :| 0 <= j < |r| && r[j] == accounts[i];
    }
    if IsSocialLinked(r, other) {
      var i :| 0 <= i < |r| && EqualsIgnoreCase(r[i].provider, other);
      assert r[i] in r;
      var j :| 0 <= j < |accounts| && accounts[j] == r[i];
    }
    UnlinkedNoMatch(r, provider);
  }

  lemma {:induction false} UnlinkedNoMatch(accounts: seq<SocialAccount>, provider: string)
    requires forall a | a in accounts :: !EqualsIgnoreCase(a.provider, provider)
    ensures Unlinked(accounts, provider) == accounts
  {
    if accounts != [] {
      assert accounts[0] in accounts;
      assert accounts == [accounts[0]] + accounts[1..];
      UnlinkedNoMatch(accounts[1..], provider);
    }
  }

  // The save button

  /** Whether the save button is shown on tab `tab`, given whether a document has been validated and
      how many documents were uploaded. */
  function SaveButtonShown(tab: string, hasValidatedDocument: bool, uploadedDocuments: nat): (shown: bool)
    ensures tab == "0" ==> shown
    ensures tab == "1" ==> (shown <==> !hasValidatedDocument && uploadedDocuments == 0)
    ensures tab == "3" ==> !shown
    ensures tab !in {"0", "1", "3"} ==> (shown <==> uploadedDocuments == 0)
  {
    tab == "0" || (tab != "3" && !((tab == "1" && hasValidatedDocument) || uploadedDocuments > 0))
  }
}
