/** The API-key form: the decision `handleSubmit` takes on the typed text,
    and the two fields it keeps (the text and the error line). */
module ApiKeyModal {
  import opened Text

  /** Keys shorter than this, in UTF-16 code units before trimming, are
      refused. */
  const MinKeyLength := 20

  const BlankMessage := "Please enter your Gemini API key"
  const InvalidMessage := "API key appears to be invalid"

  /** The outcome of submitting the form. */
  datatype Verdict = Blank | TooShort | Accepted(key: string)

  /** `handleSubmit`: the blank check comes first, then the JavaScript
      length of the text as typed; an accepted key is handed on trimmed. */
  function Validate(input: string): Verdict {
    if Trim(input) == [] then Blank
    else if Utf16Length(input) < MinKeyLength then TooShort
    else Accepted(Trim(input))
  }

  /** The error line a verdict leaves on the form. */
  function ErrorFor(v: Verdict): (msg: string)
    ensures msg == "" <==> v.Accepted?
  {
    match v
    case Blank => BlankMessage
    case TooShort => InvalidMessage
    case Accepted(_) => ""
  }

  /** The three outcomes, each characterised in terms of the input: blank
      text is refused whatever its length, non-blank text shorter than the
      limit is refused as invalid, and anything else is accepted as its
      trimmed form, which is non-empty and has no surrounding whitespace. */
  lemma ValidateSpec(input: string)
    ensures Validate(input) == Blank <==> AllSpace(input)
    ensures Validate(input) == TooShort <==> !AllSpace(input) && Utf16Length(input) < MinKeyLength
    ensures Validate(input).Accepted? <==> !AllSpace(input) && Utf16Length(input) >= MinKeyLength
    ensures Validate(input).Accepted? ==>
      var k := Validate(input).key;
      k != [] && k == Trim(input) && !IsSpace(k[0]) && !IsSpace(k[|k| - 1]) && |k| <= |input|
  {
    TrimEmptyIffBlank(input);
    var k := Trim(input);
    if k != [] {
      var t := TrimStart(input);
      assert k == TrimEnd(t) && |t| <= |input|;
      assert k[0] == t[0];
    }
  }

  /** Because the length is checked before trimming, the saved key can be
      shorter than the limit: twenty characters of which two are padding. */
  lemma AcceptedKeyMayBeShort()
    ensures exists input :: Validate(input).Accepted? && Utf16Length(Validate(input).key) < MinKeyLength
  {
    var k := seq(18, _ => 'a');
    assert k[0] == 'a' && k[|k| - 1] == 'a';
    assert Utf16Length(k) == 18;
    PaddedKeyAccepted(k);
    var input := [' '] + k + [' '];
    assert Validate(input).key == k;
  }

  /** A key padded with one space either side is accepted as the bare key
      once the padded text is long enough. */
  lemma PaddedKeyAccepted(k: string)
    requires k != [] && !IsSpace(k[0]) && !IsSpace(k[|k| - 1]) && Utf16Length(k) + 2 >= MinKeyLength
    ensures Validate([' '] + k + [' ']) == Accepted(k)
  {
    PaddedKey(k);
    var space: string := [' '];
    assert Utf16Length(space) == 1;
    Utf16LengthConcat(space, k);
    Utf16LengthConcat(space + k, space);
  }

  /** The length is JavaScript's: a character outside the Basic Multilingual
      Plane counts twice, so ten of them make a key long enough. */
  lemma AstralKeyAccepted()
    ensures var input := seq(10, _ => '\U{1F600}');
      |input| < MinKeyLength && Validate(input) == Accepted(input)
  {
    var input := seq(10, _ => '\U{1F600}');
    assert Utf16Length(input) == 2 * |input|;
    TrimUntouched(input);
  }

  /** One space either side of a key is what `trim` removes. */
  lemma PaddedKey(k: string)
    requires k != [] && !IsSpace(k[0]) && !IsSpace(k[|k| - 1])
    ensures Trim([' '] + k + [' ']) == k
  {
    var input := [' '] + k + [' '];
    assert input[1..] == k + [' '];
    assert TrimStart(input) == k + [' '];
    assert (k + [' '])[..|k|] == k;
  }

  /** The form's state: what is typed, the error shown, and the keys handed to
      `onSave` so far. */
  class Form {
    var apiKey: string
    var error: string
    var saved: seq<string>

    constructor ()
      ensures apiKey == "" && error == "" && saved == []
    {
      apiKey := "";
      error := "";
      saved := [];
    }

    /** Typing replaces the text and clears any error. */
    method OnChange(value: string)
      modifies this
      ensures apiKey == value && error == "" && saved == old(saved)
    {
      apiKey := value;
      error := "";
    }

    /** Submitting either shows an error and saves nothing, or clears the
        error and calls `onSave` exactly once, with the trimmed key. */
    method HandleSubmit()
      modifies this
      ensures apiKey == old(apiKey)
      ensures error == ErrorFor(Validate(old(apiKey)))
      ensures Validate(old(apiKey)).Accepted? ==> saved == old(saved) + [Validate(old(apiKey)).key]
      ensures !Validate(old(apiKey)).Accepted? ==> saved == old(saved)
    {
      if Trim(apiKey) == [] {
        error := BlankMessage;
        return;
      }
      if Utf16Length(apiKey) < MinKeyLength {
        error := InvalidMessage;
        return;
      }
      error := "";
      saved := saved + [Trim(apiKey)];
    }
  }
}
