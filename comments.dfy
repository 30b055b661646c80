/** The blog comment form: length guards on the trimmed text, the counter, the submit button and the author's initials. */
module CommentForm {
  import opened Wrappers
  import opened JsStrings
  import opened Api

  const MinLength := 5
  const MaxLength := 500
  const TooShortMessage := "Comment must be at least 5 characters."
  const TooLongMessage := "Comment must not exceed 500 characters."
  const SubmittedMessage := "Your comment has been submitted and is awaiting approval. Thank you!"
  const GenericError := "Something went wrong. Please try again."

  /** The guards of `handleSubmit`: the trimmed text, or the first message that applies. */
  function ValidateComment(content: string): (r: Result<string, string>)
    ensures r.Success? <==> MinLength <= |Trim(content)| <= MaxLength
    ensures r.Success? ==> r.value == Trim(content)
    ensures |Trim(content)| < MinLength ==> r == Failure(TooShortMessage)
    ensures |Trim(content)| > MaxLength ==> r == Failure(TooLongMessage)
  {
    var trimmed := Trim(content);
    if |trimmed| < MinLength then Failure(TooShortMessage)
    else if |trimmed| > MaxLength then Failure(TooLongMessage)
    else Success(trimmed)
  }

  /** The form's state: the textarea, the error banner and the success banner. */
  datatype FormState = FormState(content: string, error: Option<string>, successMsg: Option<string>)

  /** What a submission sends (`posted`, absent when a guard stops it) and the state it leaves. */
  datatype Submission = Submission(posted: Option<string>, state: FormState)

  /** The catch block: an `ApiError` shows its own message, anything else a generic one. */
  function SubmitError(e: Thrown): (m: string)
    ensures e.ApiThrown? ==> m == e.error.message
    ensures !e.ApiThrown? ==> m == GenericError
  {
    if e.ApiThrown? then e.error.message else GenericError
  }

  /** `handleSubmit` for the textarea `content`, with `addComment`'s outcome as `response`. */
  function Submit(content: string, response: Result<JsValue, Thrown>): (r: Submission)
    ensures r.posted.Some? <==> ValidateComment(content).Success?
    ensures r.posted.Some? ==> r.posted.value == Trim(content) && MinLength <= |r.posted.value| <= MaxLength
    ensures r.posted.None? ==> r.state == FormState(content, Some(ValidateComment(content).error), None)
    ensures r.posted.Some? && response.Success? ==> r.state == FormState("", None, Some(SubmittedMessage))
    ensures r.posted.Some? && response.Failure? ==> r.state == FormState(content, Some(SubmitError(response.error)), None)
  {
    match ValidateComment(content)
    case Failure(msg) => Submission(None, FormState(content, Some(msg), None))
    case Success(trimmed) =>
      match response
      case Success(_) => Submission(Some(trimmed), FormState("", None, Some(SubmittedMessage)))
      case Failure(e) => Submission(Some(trimmed), FormState(content, Some(SubmitError(e)), None))
  }

  /** The text is cleared only after an accepted submission. */
  lemma ClearedOnlyOnSuccess(content: string, response: Result<JsValue, Thrown>)
    requires content != ""
    ensures Submit(content, response).state.content == "" <==>
              ValidateComment(content).Success? && response.Success?
  {
  }

  /** `charsLeft` */
  function CharsLeft(content: string): (r: int)
    ensures r + |content| == MaxLength
  {
    MaxLength - |content|
  }

  /** `isOverLimit` */
  function IsOverLimit(content: string): (r: bool)
    ensures !r ==> |Trim(content)| <= MaxLength
  {
    |content| > MaxLength
  }

  /** The counter goes negative exactly when the text is over the limit. */
  lemma CounterNegativeIffOver(content: string)
    ensures CharsLeft(content) < 0 <==> IsOverLimit(content)
  {
  }

  datatype CounterTone = OverTone | WarningTone | PlainTone

  /** The counter's colour: red over the limit, amber within 50 characters of it. */
  function Tone(content: string): (t: CounterTone)
    ensures t == OverTone <==> IsOverLimit(content)
    ensures t == WarningTone <==> !IsOverLimit(content) && CharsLeft(content) <= 50
    ensures t == PlainTone <==> CharsLeft(content) > 50
  {
    if IsOverLimit(content) then OverTone
    else if CharsLeft(content) <= 50 then WarningTone
    else PlainTone
  }

  /** The submit button's `disabled` condition. */
  function SubmitDisabled(submitting: bool, content: string): (r: bool)
    ensures submitting ==> r
    ensures !r ==> MinLength <= |Trim(content)| <= |content| <= MaxLength
    ensures !r <==> !submitting && ValidateComment(content).Success? && !IsOverLimit(content)
  {
    submitting || IsOverLimit(content) || |Trim(content)| < MinLength
  }

  /** Whenever the button can be pressed, the guards of `handleSubmit` let the text through. */
  lemma EnabledButtonPassesGuards(content: string)
    requires !SubmitDisabled(false, content)
    ensures ValidateComment(content).Success?
    ensures Submit(content, Success(JNull)).posted == Some(Trim(content))
  {
  }

  /** The converse fails: text whose trimmed form fits can still be over the raw limit. */
  lemma GuardsLooserThanButton(pad: string)
    requires |pad| > MaxLength && AllSpaces(pad)
    ensures ValidateComment(pad + "hello").Success? && SubmitDisabled(false, pad + "hello")
  {
    TrimPadded(pad, "hello");
  }

  /** Whitespace in front of a word with non-space ends trims away entirely. */
  lemma TrimPadded(pad: string, w: string)
    requires AllSpaces(pad) && w != [] && !IsSpace(w[0]) && !IsSpace(w[|w| - 1])
    ensures Trim(pad + w) == w
  {
    var c := pad + w;
    assert c[..|pad|] == pad && c[|pad|] == w[0];
    TrimStartSkips(c, |pad|);
    assert c[|pad|..] == w;
  }

  /** Trimming the front of a string that starts with `k` spaces skips them. */
  lemma TrimStartSkips(s: string, k: nat)
    requires k <= |s| && AllSpaces(s[..k]) && (k == |s| || !IsSpace(s[k]))
    ensures TrimStart(s) == s[k..]
  {
    LeadingSpacesAt(s, k);
  }

  // -------------------------------------------------------------------------------
  // buildInitials

  /** `parts.map(p => p[0]).join("")`: an empty part contributes nothing. */
  function Heads(parts: seq<string>): (r: string)
    ensures |r| <= |parts|
    ensures (forall k :: 0 <= k < |parts| ==> parts[k] != "") ==> |r| == |parts|
  {
    if parts == [] then ""
    else (if parts[0] == "" then "" else [parts[0][0]]) + Heads(parts[1..])
  }

  /**
   * An independent reading: scanning the name, the characters that are not spaces and
   * come first or right after a space. `atStart` says whether the previous character was a space.
   */
  function WordStarts(s: string, atStart: bool): string {
    if s == [] then ""
    else (if atStart && s[0] != ' ' then [s[0]] else "") + WordStarts(s[1..], s[0] == ' ')
  }

  /** `buildInitials(name)` */
  function Initials(name: string): (r: string)
    ensures 1 <= |r| <= 2
    ensures Heads(Split(name, ' ')) == "" ==> r == "?"
    ensures Heads(Split(name, ' ')) != "" ==> |r| == if |Heads(Split(name, ' '))| >= 2 then 2 else 1
  {
    var h := Heads(Split(name, ' '));
    var kept := if |h| < 2 then h else h[..2];
    var up := Upper(kept);
    if up == "" then "?" else up
  }

  /** The heads of the parts of a split are the word starts of the string. */
  lemma {:induction false} HeadsAreWordStarts(s: string)
    ensures Heads(Split(s, ' ')) == WordStarts(s, true)
    ensures Heads(Split(s, ' ')[1..]) == WordStarts(s, false)
    decreases |s|
  {
    if s == [] {
    } else {
      var rest := Split(s[1..], ' ');
      HeadsAreWordStarts(s[1..]);
      if s[0] == ' ' {
        assert Split(s, ' ') == [""] + rest;
        assert Split(s, ' ')[1..] == rest;
      } else {
        var parts := Split(s, ' ');
        assert parts == [[s[0]] + rest[0]] + rest[1..];
        assert parts[1..] == rest[1..];
        assert parts[0][0] == s[0];
      }
    }
  }

  /** A name made only of spaces is the only kind without word starts. */
  lemma {:induction false} NoWordStartsIffBlank(s: string)
    ensures WordStarts(s, true) == "" <==> forall i :: 0 <= i < |s| ==> s[i] == ' '
    decreases |s|
  {
    if s != [] {
      NoWordStartsIffBlank(s[1..]);
      if s[0] == ' ' {
        assert forall i :: 1 <= i < |s| ==> s[i] == s[1..][i - 1];
      }
    }
  }

  /** The initials are the upper-cased first two word starts, and "?" exactly for a blank name. */
  lemma InitialsOfName(name: string)
    ensures var w := WordStarts(name, true);
            Initials(name) == if w == "" then "?" else Upper(if |w| < 2 then w else w[..2])
    ensures (forall i :: 0 <= i < |name| ==> name[i] == ' ') ==> Initials(name) == "?"
  {
    HeadsAreWordStarts(name);
    NoWordStartsIffBlank(name);
  }

  /** Two words separated by one space give the capitals of their first letters. */
  lemma TwoWordInitials(first: string, last: string)
    requires first != [] && last != [] && ' ' !in first && ' ' !in last
    ensures Initials(first + " " + last) == Upper([first[0], last[0]])
  {
    var name := first + " " + last;
    InitialsOfName(name);
    TwoWordStarts(first, last);
    assert [first[0], last[0]][..2] == [first[0], last[0]];
  }

  /** The word starts of two words separated by one space are their first letters. */
  lemma TwoWordStarts(first: string, last: string)
    requires first != [] && last != [] && ' ' !in first && ' ' !in last
    ensures WordStarts(first + " " + last, true) == [first[0], last[0]]
  {
    var tail := [' '] + last;
    assert first + " " + last == first + tail;
    LeadingWord(first, tail, true);
    assert tail == [' '] + last + [];
    LeadingWord(last, [], false);
  }

  /** A word at the start of the scan, or right after a space, contributes its first letter only. */
  lemma LeadingWord(word: string, rest: string, atStart: bool)
    requires word != [] && ' ' !in word
    ensures atStart ==> WordStarts(word + rest, true) == [word[0]] + WordStarts(rest, false)
    ensures !atStart ==> WordStarts([' '] + word + rest, false) == [word[0]] + WordStarts(rest, false)
  {
    var afterHead := word[1..] + rest;
    assert word + rest == [word[0]] + afterHead;
    assert word[0] in word;
    WordStartsCons(word[0], afterHead, true);
    SkipWord(word[1..], rest);
    assert [' '] + word + rest == [' '] + (word + rest);
    WordStartsCons(' ', word + rest, false);
  }

  /** One step of the scan. */
  lemma WordStartsCons(c: char, rest: string, atStart: bool)
    ensures WordStarts([c] + rest, atStart)
            == (if atStart && c != ' ' then [c] else "") + WordStarts(rest, c == ' ')
  {
    assert ([c] + rest)[1..] == rest;
  }

  /** A word without spaces in the middle of a scan adds no word start. */
  lemma {:induction false} SkipWord(w: string, rest: string)
    requires ' ' !in w
    ensures WordStarts(w + rest, false) == WordStarts(rest, false)
    decreases |w|
  {
    if w != [] {
      assert (w + rest)[1..] == w[1..] + rest;
      assert w[0] in w;
      SkipWord(w[1..], rest);
    } else {
      assert w + rest == rest;
    }
  }

}
