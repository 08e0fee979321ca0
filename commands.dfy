/** Recognising the two chat commands in a message body (index.js:35-44, 63). */
module Commands {
  import opened Text

  /** What a message asks for. */
  datatype Command = SetLocation(place: string) | GroupStatus | NoCommand

  const SetLocationWord := "/setlocation"
  const GroupStatusWord := "/groupstatus"

  /** The text commands are matched against: the body trimmed, then lower-cased. */
  function Normalize(body: string): (text: string)
    ensures |text| <= |body|
    ensures IsLower(text)
    ensures text == [] || (!IsSpace(text[0]) && !IsSpace(text[|text| - 1]))
  {
    var t := Trim(body);
    ToLowerKeepsEnds(t);
    ToLower(t)
  }

  /** The matched text is a slice of the body, lower-cased, with only white
      space cut away around it. */
  lemma NormalizeIsInfix(body: string) returns (k: nat)
    ensures k + |Normalize(body)| <= |body|
    ensures AllSpace(body[..k]) && AllSpace(body[k + |Normalize(body)|..])
    ensures Normalize(body) == ToLower(body[k..k + |Normalize(body)|])
  {
    var t := Trim(body);
    k := TrimIsInfix(body);
    var slice := body[k..k + |t|];
    assert t == slice;
    assert Normalize(body) == ToLower(slice);
  }

  /** No text is both commands, so the order of the two tests in the handler
      does not matter. */
  lemma CommandsExclusive(text: string)
    ensures !(StartsWith(text, SetLocationWord) && text == GroupStatusWord)
  {
    assert GroupStatusWord[1] == 'g' && SetLocationWord[1] == 's';
  }

  /** The argument of a lower-case `/setlocation` text: removing the first
      `/setlocation` removes the prefix, and the trimmed rest is lower-case
      and has no white space at its ends. */
  lemma PlaceOf(text: string)
    requires IsLower(text) && StartsWith(text, SetLocationWord)
    ensures var place := Trim(ReplaceFirst(text, SetLocationWord, ""));
            place == Trim(text[|SetLocationWord|..]) && Trim(place) == place && IsLower(place)
  {
    var rest := text[|SetLocationWord|..];
    ReplacePrefix(text, SetLocationWord);
    LowerSlice(text, |SetLocationWord|, |text|);
    TrimKeepsLower(rest);
    TrimIdempotent(rest);
  }

  /** `/setlocation` is recognised by prefix and its argument is what remains
      once the first `/setlocation` is removed, trimmed again, so it has no
      white space at its ends and is lower-case; `/groupstatus` must be the
      whole text. */
  function Parse(body: string): (c: Command)
    ensures c.SetLocation? <==> StartsWith(Normalize(body), SetLocationWord)
    ensures c.GroupStatus? <==> Normalize(body) == GroupStatusWord
    ensures c.SetLocation? ==> c.place == Trim(Normalize(body)[|SetLocationWord|..])
    ensures c.SetLocation? ==> Trim(c.place) == c.place && IsLower(c.place)
  {
    var text := Normalize(body);
    CommandsExclusive(text);
    if StartsWith(text, SetLocationWord) then
      PlaceOf(text);
      SetLocation(Trim(ReplaceFirst(text, SetLocationWord, "")))
    else if text == GroupStatusWord then GroupStatus
    else NoCommand
  }
}
