/** The SendGrid key diagnostic (check_api_key.py): the lines it prints
    for the SENDGRID_API_KEY environment variable, as a list. */
module ApiKeyCheck {
  import opened Wrappers
  import opened Env

  const ExpectedPrefix := "SG."
  const MinLength := 50
  /** How many leading characters of the key are shown. */
  const ShownChars := 6

  datatype Diagnostic =
    | KeyNotFound                 // the error printed for an unset or empty key
    | ShownPrefix(chars: string)  // the first characters of the key
    | ShownLength(length: nat)
    | PrefixWarning               // the key does not start with "SG."
    | TooShortWarning             // the key is shorter than 50 characters

  predicate StartsWith(s: string, prefix: string) {
    |prefix| <= |s| && s[..|prefix|] == prefix
  }

  function Min(a: int, b: int): int {
    if a < b then a else b
  }

  /** check_api_key: an unset key yields the one error and nothing else;
      a set key yields its first six characters (all of a shorter key), its
      length, and then each of the two warnings whose test fails. */
  function CheckApiKey(key: EnvValue): (report: seq<Diagnostic>)
    ensures !IsSet(key) ==> report == [KeyNotFound]
    ensures IsSet(key) ==> |report| >= 2 && KeyNotFound !in report
    ensures IsSet(key) ==> report[0].ShownPrefix? && |report[0].chars| == Min(ShownChars, |key.value|)
                           && StartsWith(key.value, report[0].chars)
    ensures IsSet(key) ==> report[1] == ShownLength(|key.value|)
    ensures PrefixWarning in report <==> IsSet(key) && !StartsWith(key.value, ExpectedPrefix)
    ensures TooShortWarning in report <==> IsSet(key) && |key.value| < MinLength
    // nothing else is printed, and the prefix warning comes before the length warning
    ensures IsSet(key) ==> |report| == 2 + (if StartsWith(key.value, ExpectedPrefix) then 0 else 1)
                                         + (if |key.value| < MinLength then 1 else 0)
    ensures |report| == 4 ==> report[2] == PrefixWarning && report[3] == TooShortWarning
  {
    if !IsSet(key) then [KeyNotFound]
    else
      var k := key.value;
      [ShownPrefix(k[..Min(ShownChars, |k|)]), ShownLength(|k|)]
      + (if StartsWith(k, ExpectedPrefix) then [] else [PrefixWarning])
      + (if |k| < MinLength then [TooShortWarning] else [])
  }

  /** The two warnings are independent: for each combination there is a key
      that draws exactly that combination. */
  lemma WarningsAreIndependent(prefixWarning: bool, tooShortWarning: bool) returns (key: string)
    ensures key != ""
    ensures (PrefixWarning in CheckApiKey(Some(key))) == prefixWarning
    ensures (TooShortWarning in CheckApiKey(Some(key))) == tooShortWarning
  {
    var head := if prefixWarning then "sg." else ExpectedPrefix;
    var tail := if tooShortWarning then "" else seq(MinLength, _ => 'x');
    key := head + tail;
    assert key[..|ExpectedPrefix|] == head;
  }
}
