/** The content-aware input text generator (`InputTextGenerator.generate`)
    when no LLM is configured: a sample value chosen from keywords of the
    input box's placeholder. */
module InputGenerator {
  import opened Outcomes
  import opened Text
  import opened JsonValues

  /** The `AttributeError` raised when the placeholder is not a string and
      so has no `.lower()`. */
  datatype PlaceholderError = NoLower

  const EmailSample: string := "test@example.com"
  const PhoneSample: string := "123-456-7890"
  const NameSample: string := "Jane Doe"
  /** The default text, also the last resort of the LLM path. */
  const DefaultSample: string := "sample text"

  /** `input_box_info.get("placeholder", "")` for a dict, "" for anything
      else; a placeholder that is not a string raises. */
  function Placeholder(info: Json): (r: Result<string, PlaceholderError>)
    ensures !info.JDict? ==> r == Ok("")
    ensures info.JDict? && !HasKey(info, "placeholder") ==> r == Ok("")
    ensures HasKey(info, "placeholder") ==>
      (r.Ok? <==> Lookup(info, "placeholder").value.JStr?)
      && (r.Ok? ==> Lookup(info, "placeholder").value == JStr(r.value))
  {
    if !info.JDict? then Ok("")
    else match GetOr(info, "placeholder", JStr(""))
      case JStr(s) => Ok(s)
      case _ => Err(NoLower)
  }

  /** The keyword tests, in the source's order: email, then phone, then name. */
  function SampleFor(placeholder: string): (r: string)
    ensures r != []
    ensures Contains(Lower(placeholder), "email") ==> r == EmailSample
    ensures !Contains(Lower(placeholder), "email") && Contains(Lower(placeholder), "phone") ==> r == PhoneSample
    ensures (!Contains(Lower(placeholder), "email") && !Contains(Lower(placeholder), "phone")
             && Contains(Lower(placeholder), "name")) ==> r == NameSample
    ensures r == DefaultSample <==>
      !Contains(Lower(placeholder), "email") && !Contains(Lower(placeholder), "phone") && !Contains(Lower(placeholder), "name")
  {
    var p := Lower(placeholder);
    if Contains(p, "email") then EmailSample
    else if Contains(p, "phone") then PhoneSample
    else if Contains(p, "name") then NameSample
    else DefaultSample
  }

  /** The heuristic branch of `generate`. */
  function Generate(info: Json): (r: Result<string, PlaceholderError>)
    ensures r.Err? <==> Placeholder(info).Err?
    ensures r.Ok? ==> r.value != [] && r.value == SampleFor(Placeholder(info).value)
    ensures !info.JDict? ==> r == Ok(DefaultSample)
  {
    match Placeholder(info)
    case Err(e) => Err(e)
    case Ok(p) =>
      assert !info.JDict? ==> p == "" && Lower(p) == "";
      assert !Contains("", "email") && !Contains("", "phone") && !Contains("", "name");
      Ok(SampleFor(p))
  }

  lemma LowerTwice(s: string)
    ensures Lower(Lower(s)) == Lower(s)
  {
    forall i | 0 <= i < |s|
      ensures Lower(Lower(s))[i] == Lower(s)[i]
    {
      var c := s[i];
      if 'A' <= c <= 'Z' {
        assert LowerChar(c) == (c as int + 32) as char;
      }
    }
  }

  /** The keyword tests ignore case: a placeholder and its lower-case form
      get the same sample. */
  lemma SampleIgnoresCase(placeholder: string)
    ensures SampleFor(Lower(placeholder)) == SampleFor(placeholder)
  {
    LowerTwice(placeholder);
  }
}
