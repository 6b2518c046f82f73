/**
 * The event form of the dashboard: the required-field check before an event
 * is added, the mapping of the form onto the stored event, the reset after a
 * successful add, and the letters-only rule for the image file name.
 */
module Events {
  import opened Options
  import opened Calendar
  import opened Seqs
  import Slots

  /** A picked image file; only its name is inspected. */
  datatype ImageFile = ImageFile(name: string)

  /** The form state: the date pickers and the image start out empty. */
  datatype EventForm = EventForm(
    title: string,
    image: Option<ImageFile>,
    content: string,
    startDate: Option<Instant>,
    endDate: Option<Instant>)

  /** The event handed to the store, without its image. */
  datatype NewEvent = NewEvent(eventName: string, eventContent: string, eventPeriod: Slots.Period)

  /** What pressing "Add Event" does. */
  datatype SubmitOutcome = MissingFields | AddEvent(event: NewEvent, image: Option<ImageFile>)

  /** One change from an input of the form. */
  datatype Edit =
    | SetTitle(title: string)
    | SetContent(content: string)
    | SetStart(start: Option<Instant>)
    | SetEnd(end: Option<Instant>)
    | PickFiles(files: seq<ImageFile>)

  /** The form after an input, and whether the file-name error popup opens. */
  datatype InputResult = InputResult(form: EventForm, error: bool)

  const EMPTY_FORM: EventForm := EventForm("", None, "", None, None)

  /** `handleAddEvent`: title, content and both dates are required; the image is not. */
  function Submit(form: EventForm): (r: SubmitOutcome)
    ensures r == MissingFields <==>
              form.title == "" || form.content == "" || form.startDate.None? || form.endDate.None?
    ensures r.AddEvent? ==>
              && r.event.eventName == form.title
              && r.event.eventContent == form.content
              && r.event.eventPeriod == Slots.Period(form.startDate.value, form.endDate.value)
              && r.image == form.image
  {
    if form.title == "" || form.content == "" || form.startDate.None? || form.endDate.None? then
      MissingFields
    else
      AddEvent(NewEvent(form.title, form.content, Slots.Period(form.startDate.value, form.endDate.value)), form.image)
  }

  /** The form after the store's answer: cleared on "success", kept otherwise. */
  function AfterResult(form: EventForm, status: string): (r: EventForm)
    ensures status == "success" ==> r == EMPTY_FORM
    ensures status != "success" ==> r == form
  {
    if status == "success" then EMPTY_FORM else form
  }

  /** A cleared form is refused until it is filled in again; a failed add keeps the form submittable. */
  lemma ResetBlocksResubmit(form: EventForm, status: string)
    ensures Submit(AfterResult(form, "success")) == MissingFields
    ensures status != "success" ==> Submit(AfterResult(form, status)) == Submit(form)
  {
  }

  /** `[a-zA-Z]`. */
  predicate IsLetter(c: char)
  {
    ('a' <= c <= 'z') || ('A' <= c <= 'Z')
  }

  /** `/^[a-zA-Z]+$/.test(fileName.split('.')[0])`. */
  predicate ValidImageName(name: string)
  {
    var stem := BeforeFirst(name, '.');
    |stem| > 0 && forall i :: 0 <= i < |stem| ==> IsLetter(stem[i])
  }

  /** The first `k` characters are letters, followed by a '.' or by the end of the name. */
  predicate LetterStem(name: string, k: nat)
  {
    && 0 < k <= |name| && (forall i :: 0 <= i < k ==> IsLetter(name[i]))
    && (k == |name| || name[k] == '.')
  }

  /** A run of `k` letters ending at a '.' or at the end makes the name acceptable. */
  lemma ValidAt(name: string, k: nat)
    requires LetterStem(name, k)
    ensures ValidImageName(name)
  {
    assert '.' !in name[..k] by {
      forall i | 0 <= i < k ensures name[..k][i] != '.' {
        assert IsLetter(name[i]);
      }
    }
    BeforeFirstAt(name, '.', k);
  }

  /**
   * A file name is accepted exactly when it starts with a non-empty run of
   * letters that reaches either the end of the name or a '.'.
   */
  lemma ValidImageNameIff(name: string)
    ensures ValidImageName(name) <==> exists k: nat :: LetterStem(name, k)
  {
    var stem := BeforeFirst(name, '.');
    if ValidImageName(name) {
      var k := |stem|;
      assert stem == name[..k];
      assert forall i :: 0 <= i < k ==> IsLetter(name[i]) by {
        forall i | 0 <= i < k ensures IsLetter(name[i]) {
          assert name[i] == stem[i];
        }
      }
      assert LetterStem(name, k);
    }
    forall k: nat | LetterStem(name, k)
      ensures ValidImageName(name)
    {
      ValidAt(name, k);
    }
  }

  /** Only the part before the first dot is checked, whatever follows it. */
  lemma ExtensionIgnored(stem: string, rest: string)
    requires |stem| > 0 && forall i :: 0 <= i < |stem| ==> IsLetter(stem[i])
    ensures ValidImageName(stem + "." + rest)
  {
    var name := stem + "." + rest;
    assert forall i :: 0 <= i < |stem| ==> name[i] == stem[i];
    assert LetterStem(name, |stem|);
    ValidAt(name, |stem|);
  }

  /** A space, or nothing, before the first dot makes the name unacceptable. */
  lemma RejectedNames(before: string, after: string, rest: string)
    requires '.' !in before && '.' !in after
    ensures !ValidImageName(before + " " + after + "." + rest)
    ensures !ValidImageName("." + rest)
  {
    var name := before + " " + after + "." + rest;
    var k := |before| + 1 + |after|;
    assert name[..k] == before + " " + after;
    BeforeFirstAt(name, '.', k);
    assert BeforeFirst(name, '.')[|before|] == ' ';
    BeforeFirstAt("." + rest, '.', 0);
  }

  /**
   * `handleInputChange` for the title and the file input, and the change
   * handlers of the editor and the two date pickers.
   */
  function Apply(form: EventForm, e: Edit): (r: InputResult)
    ensures r.error <==> e.PickFiles? && |e.files| > 0 && !ValidImageName(e.files[0].name)
    ensures r.error ==> r.form == form
    ensures e.PickFiles? && |e.files| == 0 ==> r.form == form
    ensures e.PickFiles? && |e.files| > 0 && ValidImageName(e.files[0].name) ==>
              r.form == form.(image := Some(e.files[0]))
    ensures e.SetTitle? ==> r.form == form.(title := e.title)
    ensures e.SetContent? ==> r.form == form.(content := e.content)
    ensures e.SetStart? ==> r.form == form.(startDate := e.start)
    ensures e.SetEnd? ==> r.form == form.(endDate := e.end)
  {
    match e
    case SetTitle(v) => InputResult(form.(title := v), false)
    case SetContent(v) => InputResult(form.(content := v), false)
    case SetStart(d) => InputResult(form.(startDate := d), false)
    case SetEnd(d) => InputResult(form.(endDate := d), false)
    case PickFiles(files) =>
      if |files| == 0 then InputResult(form, false)
      else if !ValidImageName(files[0].name) then InputResult(form, true)
      else InputResult(form.(image := Some(files[0])), false)
  }

  /** Which field of the form an input writes. */
  function Writes(e: Edit): (f: string)
  {
    match e
    case SetTitle(_) => "title"
    case SetContent(_) => "content"
    case SetStart(_) => "startDate"
    case SetEnd(_) => "endDate"
    case PickFiles(_) => "image"
  }

  /**
   * An input changes no field but its own: every other field reads the same
   * afterwards, and the image is never what decides whether the form can be
   * submitted.
   */
  lemma OnlyOwnField(form: EventForm, e: Edit)
    ensures var f := Apply(form, e).form;
            && (Writes(e) != "title" ==> f.title == form.title)
            && (Writes(e) != "content" ==> f.content == form.content)
            && (Writes(e) != "startDate" ==> f.startDate == form.startDate)
            && (Writes(e) != "endDate" ==> f.endDate == form.endDate)
            && (Writes(e) != "image" ==> f.image == form.image)
    ensures e.PickFiles? ==> Submit(Apply(form, e).form).MissingFields? == Submit(form).MissingFields?
  {
  }

  /** An image in the form always passed the name check when it was picked. */
  predicate ImageOk(form: EventForm)
  {
    form.image.Some? ==> ValidImageName(form.image.value.name)
  }

  /** Inputs and resets keep the image valid, so an added event never carries a rejected name. */
  lemma ImageStaysValid(form: EventForm, e: Edit, status: string)
    requires ImageOk(form)
    ensures ImageOk(Apply(form, e).form)
    ensures ImageOk(AfterResult(form, status))
    ensures Submit(form).AddEvent? && Submit(form).image.Some? ==> ValidImageName(Submit(form).image.value.name)
  {
  }
}
