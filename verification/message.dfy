/** Message normalisation (`setMessage`): the label in front of the bar is
    kept in a fixed 35-character column. */
module Message {
  import opened Results
  import opened Text

  /** The width of the message column. */
  const Width := 35

  /** A stored message: exactly one column wide. */
  predicate Normal(m: string) {
    |m| == Width
  }

  /** A message of at most `Width` characters is padded on the right with
      spaces (`String.format("%1$-35s", message)`); a longer one is refused.
      The branch for exactly 25 characters sits behind the `<= 35` test and
      can never be taken; the contract's first clause shows it. */
  function Normalize(message: string): (r: Result<string>)
    ensures r.Ok? <==> |message| <= Width
    ensures r.Err? ==> r.error == MessageOverflow
    ensures r.Ok? ==> Normal(r.value) && r.value[..|message|] == message
    ensures r.Ok? ==> forall i :: |message| <= i < Width ==> r.value[i] == ' '
  {
    if |message| <= Width then Ok(message + Repeat(' ', Width - |message|))
    else if |message| == 25 then Ok(message)
    else Err(MessageOverflow)
  }

  /** Normalising a stored message changes nothing. */
  lemma NormalizeIdempotent(message: string)
    requires Normalize(message).Ok?
    ensures Normalize(Normalize(message).value) == Normalize(message)
  {
    var m := Normalize(message).value;
    assert Normalize(m).value == m;
  }

  /** Two messages without trailing blanks are stored alike only when they
      are equal: padding loses nothing but trailing spaces. */
  lemma NormalizeInjective(a: string, b: string)
    requires Normalize(a).Ok? && Normalize(b).Ok?
    requires |a| == 0 || a[|a| - 1] != ' '
    requires |b| == 0 || b[|b| - 1] != ' '
    requires Normalize(a) == Normalize(b)
    ensures a == b
  {
  }
}
