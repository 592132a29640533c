/** The workout page (src/pages/Workout.tsx): a session controller that counts
    seconds and repetitions while active, plays canned feedback into a bounded
    newest-first history and narrates the newest unseen message. The page's
    React state becomes the fields of `SessionController`; each button handler,
    effect and timer callback becomes one of its methods. Calls into the speech
    library are recorded in the ghost log `speech`. */
module WorkoutSession {
  import opened Types
  import opened Catalog
  import opened Text

  /** The page's own exercise table: only Squat and Push-up. */
  const WorkoutExercises: seq<Exercise> := [Squat, PushUp]

  /** The history keeps the 10 most recent items. */
  const MaxHistory: nat := 10
  /** A rep is credited every 5 ticks. */
  const RepPeriod: nat := 5
  /** A feedback item is added every 10 ticks. */
  const FeedbackPeriod: nat := 10

  // ---------------------------------------------------------------------------
  // Reference-data lookups

  /** `table.find(ex => ex.id === id)`. */
  function FindExercise(table: seq<Exercise>, id: string): (r: Option<Exercise>)
    ensures r.Some? ==> r.value in table && r.value.id == id
    ensures forall k :: 0 <= k < |table| && table[k].id == id && (forall j :: 0 <= j < k ==> table[j].id != id) ==>
      r == Some(table[k])
    ensures r.None? <==> forall k :: 0 <= k < |table| ==> table[k].id != id
  {
    if table == [] then None
    else if table[0].id == id then Some(table[0])
    else FindExercise(table[1..], id)
  }

  /** The workout page binds exactly ids "1" and "2"; "3" (Lunges) is not in its table. */
  lemma {:induction false} WorkoutTableLookup(id: string)
    ensures id == "1" ==> FindExercise(WorkoutExercises, id) == Some(Squat)
    ensures id == "2" ==> FindExercise(WorkoutExercises, id) == Some(PushUp)
    ensures FindExercise(WorkoutExercises, id).Some? <==> id == "1" || id == "2"
  {
    assert WorkoutExercises[0].id == "1" && WorkoutExercises[1].id == "2";
  }

  /** `searchParams.get('exercise') || '1'`: an absent or empty parameter means "1". */
  function ExerciseIdFromQuery(param: Option<string>): (r: string)
    ensures r != ""
    ensures param.Some? && param.value != "" ==> r == param.value
    ensures param.None? || param.value == "" ==> r == "1"
  {
    match param
    case None => "1"
    case Some(s) => if s == "" then "1" else s
  }

  // ---------------------------------------------------------------------------
  // Canned feedback

  /** `generateMockFeedback`: the fixed list for an exercise id; `now` stands for `Date.now()`. */
  function GenerateMockFeedback(exerciseId: string, now: int): (r: seq<FeedbackItem>)
    ensures exerciseId == "1" ==> |r| == 3
    ensures exerciseId == "2" ==> |r| == 2
    ensures exerciseId != "1" && exerciseId != "2" ==> r == []
    ensures forall i :: 0 <= i < |r| ==> r[i].timestamp < now
  {
    if exerciseId == "1" then
      [ FeedbackItem("1", "Keep your knees aligned with your toes", Medium, now - 5000, Some("knees")),
        FeedbackItem("2", "Lower your hips more to reach proper depth", Low, now - 3000, Some("hips")),
        FeedbackItem("3", "Keep your back straight", High, now - 1000, Some("back")) ]
    else if exerciseId == "2" then
      [ FeedbackItem("1", "Keep your core engaged", Medium, now - 5000, Some("core")),
        FeedbackItem("2", "Lower your chest closer to the ground", Low, now - 3000, Some("chest")) ]
    else []
  }

  /** Only the timestamps depend on the clock. */
  lemma GeneratedContentIgnoresClock(exerciseId: string, t1: int, t2: int)
    ensures |GenerateMockFeedback(exerciseId, t1)| == |GenerateMockFeedback(exerciseId, t2)|
    ensures forall i :: 0 <= i < |GenerateMockFeedback(exerciseId, t1)| ==>
      GenerateMockFeedback(exerciseId, t1)[i].message == GenerateMockFeedback(exerciseId, t2)[i].message &&
      GenerateMockFeedback(exerciseId, t1)[i].severity == GenerateMockFeedback(exerciseId, t2)[i].severity
  {
  }

  /** The message of the first canned item, the only one the page ever shows. */
  function CannedHeadMessage(exerciseId: string): string {
    var items := GenerateMockFeedback(exerciseId, 0);
    if items == [] then "" else items[0].message
  }

  /** The message a Squat session repeats, the one a Push-up session repeats,
      and none for any other id. */
  lemma CannedHeadMessages(exerciseId: string)
    ensures exerciseId == "1" ==> CannedHeadMessage(exerciseId) == "Keep your knees aligned with your toes"
    ensures exerciseId == "2" ==> CannedHeadMessage(exerciseId) == "Keep your core engaged"
    ensures CannedHeadMessage(exerciseId) != "" <==> exerciseId == "1" || exerciseId == "2"
  {
  }

  /** `s.slice(0, n)`. */
  function Take<T>(s: seq<T>, n: nat): (r: seq<T>)
    ensures |r| == if |s| <= n then |s| else n
    ensures r == s[..|r|]
  {
    if |s| <= n then s else s[..n]
  }

  /** `[...newFeedback.slice(0, 1), ...prev].slice(0, 10)`: the first new item,
      if any, goes in front of the previous items, and the result is cut to 10. */
  function PushFeedback(newFeedback: seq<FeedbackItem>, prev: seq<FeedbackItem>): (r: seq<FeedbackItem>)
    ensures |r| <= MaxHistory
    ensures newFeedback == [] ==> r == Take(prev, MaxHistory)
    ensures newFeedback != [] ==>
      && |r| == (if |prev| + 1 <= MaxHistory then |prev| + 1 else MaxHistory)
      && r[0] == newFeedback[0]
      && forall i :: 1 <= i < |r| ==> r[i] == prev[i - 1]
  {
    Take(Take(newFeedback, 1) + prev, MaxHistory)
  }

  /** A full history drops exactly its oldest item when a new one arrives. */
  lemma PushFeedbackEvictsOldest(item: FeedbackItem, prev: seq<FeedbackItem>)
    requires |prev| == MaxHistory
    ensures PushFeedback([item], prev) == [item] + prev[..MaxHistory - 1]
  {
    var r := PushFeedback([item], prev);
    assert |r| == MaxHistory;
    forall i | 0 <= i < MaxHistory ensures r[i] == ([item] + prev[..MaxHistory - 1])[i] {
    }
  }

  /** Every item of `items` carries the first canned message of the exercise. */
  predicate FromExercise(items: seq<FeedbackItem>, exerciseId: string) {
    forall i :: 0 <= i < |items| ==> items[i].message == CannedHeadMessage(exerciseId)
  }

  /** Starting a session yields a history drawn from the exercise, whatever the clock. */
  lemma StartHistoryFromExercise(exerciseId: string, now: int)
    ensures FromExercise(Take(GenerateMockFeedback(exerciseId, now), 1), exerciseId)
  {
    GeneratedContentIgnoresClock(exerciseId, now, 0);
  }

  /** Pushing the exercise's feedback keeps the history drawn from that exercise. */
  lemma PushFromExercise(exerciseId: string, now: int, prev: seq<FeedbackItem>)
    requires FromExercise(prev, exerciseId)
    ensures FromExercise(PushFeedback(GenerateMockFeedback(exerciseId, now), prev), exerciseId)
  {
    GeneratedContentIgnoresClock(exerciseId, now, 0);
    var r := PushFeedback(GenerateMockFeedback(exerciseId, now), prev);
    forall i | 0 <= i < |r| ensures r[i].message == CannedHeadMessage(exerciseId) {
      if GenerateMockFeedback(exerciseId, now) == [] {
        assert r[i] == prev[i];
      } else if i > 0 {
        assert r[i] == prev[i - 1];
      }
    }
  }

  /** Once the newest message of a history drawn from the exercise has been
      narrated, pushing more of the exercise's feedback leaves nothing to say. */
  lemma PushStaysSilent(audioEnabled: bool, exerciseId: string, now: int, prev: seq<FeedbackItem>, lastSpoken: string)
    requires FromExercise(prev, exerciseId) && |prev| > 0
    requires Announcement(audioEnabled, prev, lastSpoken) == None
    ensures Announcement(audioEnabled, PushFeedback(GenerateMockFeedback(exerciseId, now), prev), lastSpoken) == None
  {
    PushFromExercise(exerciseId, now, prev);
    var r := PushFeedback(GenerateMockFeedback(exerciseId, now), prev);
    assert |r| > 0;
    assert r[0].message == CannedHeadMessage(exerciseId) == prev[0].message;
  }

  // ---------------------------------------------------------------------------
  // Narration parameters

  /** Voice parameters in tenths: rate 1.1 is 11, volume 0.8 is 8. */
  datatype SpeechOptions = SpeechOptions(rate: int, pitch: int, volume: int)

  /** The severity-to-voice table of the narration effect. */
  function SpeechParams(severity: Severity): (o: SpeechOptions)
    ensures o.pitch == 10
    ensures severity == High ==> o.rate == 11 && o.volume == 10
    ensures severity == Medium ==> o.rate == 10 && o.volume == 9
    ensures severity == Low ==> o.rate == 9 && o.volume == 8
  {
    var options := SpeechOptions(10, 10, 10);
    if severity == High then options.(rate := 11, volume := 10)
    else if severity == Medium then options.(rate := 10, volume := 9)
    else options.(rate := 9, volume := 8)
  }

  function SeverityRank(s: Severity): nat {
    match s
    case Low => 0
    case Medium => 1
    case High => 2
  }

  /** More urgent feedback is never spoken slower or quieter, every volume is
      within the speech API's 0..1 range, and each severity sounds different. */
  lemma SpeechParamsOrdered(a: Severity, b: Severity)
    ensures SeverityRank(a) <= SeverityRank(b) ==>
      SpeechParams(a).rate <= SpeechParams(b).rate && SpeechParams(a).volume <= SpeechParams(b).volume
    ensures 0 <= SpeechParams(a).volume <= 10
    ensures a != b ==> SpeechParams(a) != SpeechParams(b)
  {
  }

  // ---------------------------------------------------------------------------
  // Narration selector

  datatype Utterance = Utterance(text: string, options: SpeechOptions)

  /** What the page asks the speech library to do. */
  datatype SpeechEvent = Speak(utterance: Utterance) | Cancel

  /** The narration effect's decision: speak the newest item when audio is on
      and its text differs from the last text spoken. */
  function Announcement(audioEnabled: bool, items: seq<FeedbackItem>, lastSpoken: string): (r: Option<Utterance>)
    ensures r.Some? <==> audioEnabled && |items| > 0 && items[0].message != lastSpoken
    ensures r.Some? ==> r.value.text == items[0].message && r.value.options == SpeechParams(items[0].severity)
  {
    if audioEnabled && |items| > 0 && items[0].message != lastSpoken then
      Some(Utterance(items[0].message, SpeechParams(items[0].severity)))
    else None
  }

  /** The last-spoken text after the decision. */
  function SpokenAfter(lastSpoken: string, u: Option<Utterance>): string {
    if u.Some? then u.value.text else lastSpoken
  }

  /** The speech calls the decision issues. */
  function Spoken(u: Option<Utterance>): seq<SpeechEvent> {
    if u.Some? then [Speak(u.value)] else []
  }

  /** Running the selector a second time on the same history says nothing. */
  lemma AnnouncementIdempotent(audioEnabled: bool, items: seq<FeedbackItem>, lastSpoken: string)
    ensures Announcement(audioEnabled, items, SpokenAfter(lastSpoken, Announcement(audioEnabled, items, lastSpoken))) == None
  {
  }

  /** A new item whose text equals the one just narrated is not narrated again. */
  lemma RepeatedMessageSuppressed(audioEnabled: bool, incoming: FeedbackItem, prev: seq<FeedbackItem>, lastSpoken: string)
    requires |prev| > 0 && incoming.message == prev[0].message
    requires audioEnabled
    ensures Announcement(audioEnabled, PushFeedback([incoming], prev),
                         SpokenAfter(lastSpoken, Announcement(audioEnabled, prev, lastSpoken))) == None
  {
  }

  // ---------------------------------------------------------------------------
  // Time-derived figures

  /** The interval callback credits a rep when the value it read, the one
      before the increment, is a positive multiple of 5. */
  predicate RepDue(t: nat) { t > 0 && t % RepPeriod == 0 }

  /** Likewise a feedback item for a positive multiple of 10. */
  predicate FeedbackDue(t: nat) { t > 0 && t % FeedbackPeriod == 0 }

  /** The rep count after `t` ticks from zero. */
  function RepsAt(t: nat): nat {
    if t == 0 then 0 else (t - 1) / RepPeriod
  }

  /** For `t > 0` the rep count is the number of positive multiples of 5 below `t`. */
  lemma RepsAtBounds(t: nat)
    ensures t == 0 ==> RepsAt(t) == 0
    ensures t > 0 ==> RepPeriod * RepsAt(t) < t <= RepPeriod * (RepsAt(t) + 1)
  {
  }

  /** Number of ticks among the first `t` (which read 0 .. t-1) that credit a rep. */
  function RepTicksBefore(t: nat): nat {
    if t == 0 then 0 else RepTicksBefore(t - 1) + (if RepDue(t - 1) then 1 else 0)
  }

  /** One tick moves the closed form by exactly the rep it credits. */
  lemma RepsAtStep(t: nat)
    ensures RepsAt(t + 1) == RepsAt(t) + (if RepDue(t) then 1 else 0)
  {
    if t > 0 {
      var q, r := (t - 1) / RepPeriod, (t - 1) % RepPeriod;
      assert t - 1 == RepPeriod * q + r;
      if r == RepPeriod - 1 {
        assert t == RepPeriod * (q + 1);
        assert t / RepPeriod == q + 1;
      } else {
        assert t == RepPeriod * q + (r + 1);
        assert t / RepPeriod == q;
      }
    }
  }

  /** The closed form agrees with counting ticks one by one. */
  lemma {:induction false} RepsAtCountsTicks(t: nat)
    ensures RepsAt(t) == RepTicksBefore(t)
  {
    if t > 0 {
      RepsAtCountsTicks(t - 1);
      RepsAtStep(t - 1);
    }
  }

  /** Reps lag `t / 5` by one exactly at positive multiples of 5: 10 ticks give
      1 rep, 11 ticks give 2. */
  lemma RepsAtVersusQuotient(t: nat)
    ensures RepsAt(t) == if t > 0 && t % RepPeriod == 0 then t / RepPeriod - 1 else t / RepPeriod
  {
    if t > 0 {
      var q, r := t / RepPeriod, t % RepPeriod;
      assert t == RepPeriod * q + r;
      if r == 0 {
        assert t - 1 == RepPeriod * (q - 1) + (RepPeriod - 1);
      } else {
        assert t - 1 == RepPeriod * q + (r - 1);
      }
    }
  }

  /** `Math.floor(t * 0.15)` in exact arithmetic: the largest c with 100c <= 15t. */
  function Calories(t: nat): (c: nat)
    ensures 100 * c <= 15 * t < 100 * c + 100
  {
    (15 * t) / 100
  }

  /** `n.toString().padStart(2, '0')`. */
  function Pad2(n: nat): (r: string)
    ensures n < 10 ==> r == ['0'] + DecimalDigits(n)
    ensures n >= 10 ==> r == DecimalDigits(n)
  {
    PadStart(DecimalDigits(n), 2, '0')
  }

  /** Two digits below 100, more from 100 on, reading back as `n`. */
  lemma Pad2Facts(n: nat)
    ensures AllDigits(Pad2(n)) && |Pad2(n)| >= 2
    ensures n < 100 <==> |Pad2(n)| == 2
    ensures DecimalValue(Pad2(n)) == n
  {
    var d := DecimalDigits(n);
    DecimalDigitsLength(n);
    DecimalRoundTrip(n);
    if |d| < 2 {
      assert Pad2(n) == ['0'] + d;
      assert (['0'] + d)[..1] == ['0'];
    }
  }

  /** `formatTime`: minutes and seconds, each padded to two digits. */
  function FormatTime(seconds: nat): (t: string)
    ensures |t| >= 5 && t[|t| - 3] == ':'
    ensures AllDigits(t[..|t| - 3]) && AllDigits(t[|t| - 2..])
  {
    Pad2Facts(seconds / 60);
    Pad2Facts(seconds % 60);
    JoinedShape(Pad2(seconds / 60), Pad2(seconds % 60));
    Pad2(seconds / 60) + ":" + Pad2(seconds % 60)
  }

  /** Two digit runs joined by a colon, the second of length two. */
  lemma JoinedShape(mins: string, secs: string)
    requires AllDigits(mins) && |mins| >= 2 && AllDigits(secs) && |secs| == 2
    ensures var t := mins + ":" + secs;
      |t| >= 5 && t[|t| - 3] == ':' && t[..|t| - 3] == mins && t[|t| - 2..] == secs
  {
    var t := mins + ":" + secs;
    assert t[..|t| - 3] == mins;
    assert t[|t| - 2..] == secs;
  }

  /** Reads "mm:ss" (any number of minute digits) back into seconds. */
  function ParseTime(t: string): Option<int> {
    if |t| >= 5 && t[|t| - 3] == ':' && AllDigits(t[..|t| - 3]) && AllDigits(t[|t| - 2..]) then
      Some(DecimalValue(t[..|t| - 3]) * 60 + DecimalValue(t[|t| - 2..]))
    else None
  }

  lemma ParseJoined(mins: string, secs: string)
    requires AllDigits(mins) && |mins| >= 2 && AllDigits(secs) && |secs| == 2
    ensures ParseTime(mins + ":" + secs) == Some(DecimalValue(mins) * 60 + DecimalValue(secs))
  {
    JoinedShape(mins, secs);
    ParseShape(mins + ":" + secs);
  }

  /** A well-formed display parses to its minutes times 60 plus its seconds. */
  lemma ParseShape(t: string)
    requires |t| >= 5 && t[|t| - 3] == ':' && AllDigits(t[..|t| - 3]) && AllDigits(t[|t| - 2..])
    ensures ParseTime(t) == Some(DecimalValue(t[..|t| - 3]) * 60 + DecimalValue(t[|t| - 2..]))
  {
  }

  /** The display always has a two-digit seconds field below 60 and reads back
      as the elapsed seconds; below 100 minutes it is exactly five characters. */
  lemma FormatTimeRoundTrip(seconds: nat)
    ensures ParseTime(FormatTime(seconds)) == Some(seconds)
    ensures var t := FormatTime(seconds); |t| >= 5 && DecimalValue(t[|t| - 2..]) < 60
    ensures seconds < 6000 <==> |FormatTime(seconds)| == 5
  {
    var q, r := seconds / 60, seconds % 60;
    assert q * 60 + r == seconds;
    assert q < 100 <==> seconds < 6000;
    Pad2Facts(q);
    Pad2Facts(r);
    ParseJoined(Pad2(q), Pad2(r));
    var t := FormatTime(seconds);
    assert t[|t| - 2..] == Pad2(r);
  }

  // ---------------------------------------------------------------------------
  // The session controller

  class SessionController {
    /** The exercise id read from the page's query string. */
    var exerciseId: string
    var currentExercise: Option<Exercise>
    var isActive: bool
    var feedbackItems: seq<FeedbackItem>
    var audioEnabled: bool
    var elapsedTime: nat
    var repCount: nat
    /** `lastFeedbackRef.current`: the text most recently narrated. */
    var lastFeedback: string
    /** Every `speak` and `cancelSpeech` call, oldest first. */
    ghost var speech: seq<SpeechEvent>

    /** What holds between operations, before the narration effect has run. */
    ghost predicate Consistent()
      reads this
    {
      && |feedbackItems| <= MaxHistory
      && repCount == RepsAt(elapsedTime)
      && (currentExercise.Some? ==> |GenerateMockFeedback(currentExercise.value.id, 0)| > 0)
      && (if currentExercise.Some? then FromExercise(feedbackItems, currentExercise.value.id)
          else feedbackItems == [])
      && (isActive && currentExercise.Some? ==> |feedbackItems| >= 1)
    }

    /** The full invariant: the narration effect has nothing left to say. */
    ghost predicate Valid()
      reads this
    {
      Consistent() && Announcement(audioEnabled, feedbackItems, lastFeedback) == None
    }

    /** The state change of the exercise-selection effect. */
    twostate predicate ExerciseSelected(id: string)
      reads this
    {
      match FindExercise(WorkoutExercises, id)
      case None =>
        && currentExercise == old(currentExercise) && isActive == old(isActive)
        && feedbackItems == old(feedbackItems) && elapsedTime == old(elapsedTime)
        && repCount == old(repCount) && lastFeedback == old(lastFeedback) && speech == old(speech)
      case Some(e) =>
        && currentExercise == Some(e) && !isActive
        && feedbackItems == [] && elapsedTime == 0 && repCount == 0
        && lastFeedback == old(lastFeedback) && speech == old(speech) + [Cancel]
    }

    /** The page opening with query parameter `param`: the initial state, then
        the selection effect for the resolved id. */
    constructor (param: Option<string>)
      ensures Valid()
      ensures exerciseId == ExerciseIdFromQuery(param)
      ensures currentExercise == FindExercise(WorkoutExercises, exerciseId)
      ensures !isActive && audioEnabled && elapsedTime == 0 && repCount == 0
      ensures feedbackItems == [] && lastFeedback == ""
      ensures speech == if currentExercise.Some? then [Cancel] else []
    {
      exerciseId := ExerciseIdFromQuery(param);
      currentExercise := None;
      isActive := false;
      feedbackItems := [];
      audioEnabled := true;
      elapsedTime := 0;
      repCount := 0;
      lastFeedback := "";
      speech := [];
      new;
      SelectExercise(exerciseId);
    }

    /** The narration effect, run whenever the history or the audio flag changes. */
    method Narrate()
      requires Consistent()
      modifies this`lastFeedback, this`speech
      ensures Valid()
      ensures var u := Announcement(audioEnabled, feedbackItems, old(lastFeedback));
        lastFeedback == SpokenAfter(old(lastFeedback), u) && speech == old(speech) + Spoken(u)
    {
      if audioEnabled && |feedbackItems| > 0 {
        var latestFeedback := feedbackItems[0];
        if latestFeedback.message != lastFeedback {
          lastFeedback := latestFeedback.message;
          var options := SpeechParams(latestFeedback.severity);
          speech := speech + [Speak(Utterance(latestFeedback.message, options))];
        }
      }
    }

    /** The exercise-selection effect for id `id`: a known id binds the exercise
        and clears the session; an unknown one changes nothing. */
    method SelectExercise(id: string)
      requires Valid()
      modifies this`currentExercise, this`isActive, this`feedbackItems, this`elapsedTime,
               this`repCount, this`lastFeedback, this`speech
      ensures Valid()
      ensures ExerciseSelected(id)
    {
      var exercise := FindExercise(WorkoutExercises, id);
      if exercise.Some? {
        currentExercise := exercise;
        isActive := false;
        feedbackItems := [];
        elapsedTime := 0;
        repCount := 0;
        speech := speech + [Cancel];
        Narrate();
      }
    }

    /** A change of the query string: the selection effect runs only when the
        resolved id differs from the previous one. */
    method SetQuery(param: Option<string>)
      requires Valid()
      modifies this
      ensures Valid()
      ensures exerciseId == ExerciseIdFromQuery(param) && audioEnabled == old(audioEnabled)
      ensures exerciseId == old(exerciseId) ==> unchanged(this)
      ensures exerciseId != old(exerciseId) ==> ExerciseSelected(exerciseId)
    {
      var id := ExerciseIdFromQuery(param);
      if id != exerciseId {
        exerciseId := id;
        SelectExercise(id);
      }
    }

    /** `toggleWorkout`: starting with a bound exercise replaces the history by
        the first canned item; every other toggle cancels speech. */
    method ToggleWorkout(now: int)
      requires Valid()
      modifies this`isActive, this`feedbackItems, this`lastFeedback, this`speech
      ensures Valid()
      ensures isActive == !old(isActive)
      ensures if isActive && currentExercise.Some? then
          && feedbackItems == Take(GenerateMockFeedback(currentExercise.value.id, now), 1)
          && |feedbackItems| == 1
          && var u := Announcement(audioEnabled, feedbackItems, old(lastFeedback));
             lastFeedback == SpokenAfter(old(lastFeedback), u) && speech == old(speech) + Spoken(u)
        else
          feedbackItems == old(feedbackItems) && lastFeedback == old(lastFeedback)
          && speech == old(speech) + [Cancel]
    {
      var newActiveState := !isActive;
      isActive := newActiveState;
      if newActiveState && currentExercise.Some? {
        var id := currentExercise.value.id;
        StartHistoryFromExercise(id, now);
        GeneratedContentIgnoresClock(id, now, 0);
        feedbackItems := Take(GenerateMockFeedback(id, now), 1);
        Narrate();
      } else {
        speech := speech + [Cancel];
      }
    }

    /** `resetWorkout`. */
    method ResetWorkout()
      requires Valid()
      modifies this`isActive, this`elapsedTime, this`repCount, this`feedbackItems,
               this`lastFeedback, this`speech
      ensures Valid()
      ensures !isActive && elapsedTime == 0 && repCount == 0 && feedbackItems == []
      ensures lastFeedback == "" && speech == old(speech) + [Cancel]
    {
      isActive := false;
      elapsedTime := 0;
      repCount := 0;
      feedbackItems := [];
      speech := speech + [Cancel];
      lastFeedback := "";
      Narrate();
    }

    /** The audio button: turning audio off cancels speech; turning it on lets
        the narration effect speak an unspoken newest item. */
    method ToggleAudio()
      requires Valid()
      modifies this`audioEnabled, this`lastFeedback, this`speech
      ensures Valid()
      ensures audioEnabled == !old(audioEnabled)
      ensures !audioEnabled ==> lastFeedback == old(lastFeedback) && speech == old(speech) + [Cancel]
      ensures audioEnabled ==>
        var u := Announcement(true, feedbackItems, old(lastFeedback));
        lastFeedback == SpokenAfter(old(lastFeedback), u) && speech == old(speech) + Spoken(u)
    {
      var newAudioState := !audioEnabled;
      audioEnabled := newAudioState;
      if !newAudioState {
        speech := speech + [Cancel];
      }
      Narrate();
    }

    /** One firing of the one-second interval. The callback reads the elapsed
        time it closed over, the value before its own increment. Because every
        item of a session carries the same text, a tick never narrates. */
    method Tick(now: int)
      requires Valid() && isActive
      modifies this`elapsedTime, this`repCount, this`feedbackItems, this`lastFeedback, this`speech
      ensures Valid()
      ensures elapsedTime == old(elapsedTime) + 1
      ensures repCount == old(repCount) + (if RepDue(old(elapsedTime)) then 1 else 0)
      ensures feedbackItems ==
        if FeedbackDue(old(elapsedTime)) && currentExercise.Some? then
          PushFeedback(GenerateMockFeedback(currentExercise.value.id, now), old(feedbackItems))
        else old(feedbackItems)
      ensures lastFeedback == old(lastFeedback) && speech == old(speech)
    {
      var prev := elapsedTime;
      RepsAtStep(prev);
      elapsedTime := elapsedTime + 1;
      if prev > 0 && prev % RepPeriod == 0 {
        repCount := repCount + 1;
      }
      if prev > 0 && prev % FeedbackPeriod == 0 && currentExercise.Some? {
        AddFeedback(now);
      }
    }

    /** The feedback half of the interval callback: the first canned item of
        the bound exercise goes in front of the history, cut to 10 items, and
        the narration effect runs on the new history. */
    method AddFeedback(now: int)
      requires Valid() && isActive && currentExercise.Some?
      modifies this`feedbackItems, this`lastFeedback, this`speech
      ensures Valid()
      ensures feedbackItems == PushFeedback(GenerateMockFeedback(currentExercise.value.id, now), old(feedbackItems))
      ensures lastFeedback == old(lastFeedback) && speech == old(speech)
    {
      var id := currentExercise.value.id;
      PushFromExercise(id, now, feedbackItems);
      PushStaysSilent(audioEnabled, id, now, feedbackItems, lastFeedback);
      var newFeedback := GenerateMockFeedback(id, now);
      feedbackItems := PushFeedback(newFeedback, feedbackItems);
      Narrate();
    }
  }

  // ---------------------------------------------------------------------------
  // A session driven from the outside

  /** Open the page without a query parameter, start, and let 11 seconds pass:
      two reps (credited when leaving 5 and 10) and two history items (the one
      from starting and the one added when leaving 10). The only speech is the
      cancel of the selection effect and the first item, spoken once. */
  method SquatSession() returns (elapsed: nat, reps: nat, historyLength: nat, ghost log: seq<SpeechEvent>)
    ensures elapsed == 11 && reps == 2 && historyLength == 2
    ensures log == [Cancel, Speak(Utterance("Keep your knees aligned with your toes", SpeechOptions(10, 10, 9)))]
  {
    var session := new SessionController(None);
    WorkoutTableLookup("1");
    session.ToggleWorkout(0);
    var i := 0;
    while i < 11
      invariant 0 <= i <= 11
      invariant session.Valid() && session.isActive && session.currentExercise == Some(Squat)
      invariant session.elapsedTime == i
      invariant |session.feedbackItems| == if i <= 10 then 1 else 2
      invariant session.speech == [Cancel, Speak(Utterance("Keep your knees aligned with your toes", SpeechOptions(10, 10, 9)))]
    {
      if i == 10 {
        assert session.repCount == 1 && |session.feedbackItems| == 1;
      }
      session.Tick(1000 * i);
      i := i + 1;
    }
    elapsed, reps, historyLength := session.elapsedTime, session.repCount, |session.feedbackItems|;
    log := session.speech;
  }

  /** Open the page on a known exercise, start, and let one second pass. */
  method StartedSession(id: string) returns (session: SessionController)
    requires id == "1" || id == "2"
    ensures fresh(session) && session.Valid()
    ensures session.exerciseId == id && session.isActive
    ensures session.currentExercise.Some? && session.currentExercise.value.id == id
    ensures session.elapsedTime == 1 && |session.feedbackItems| == 1
  {
    session := new SessionController(Some(id));
    WorkoutTableLookup(id);
    session.ToggleWorkout(0);
    session.Tick(1000);
  }

  /** Switching the query to Push-up while a Squat session runs stops the
      session and clears its time and history. */
  method SwitchWhileRunning() returns (active: bool, elapsed: nat, historyLength: nat, bound: string)
    ensures !active && elapsed == 0 && historyLength == 0 && bound == "2"
  {
    var session := StartedSession("1");
    WorkoutTableLookup("2");
    session.SetQuery(Some("2"));
    active, elapsed, historyLength := session.isActive, session.elapsedTime, |session.feedbackItems|;
    bound := if session.currentExercise.Some? then session.currentExercise.value.id else "";
  }

  /** Switching the query to the unknown id "3" (the library's Lunges card)
      leaves the bound exercise and the running session as they were. */
  method UnknownIdIgnored() returns (active: bool, elapsed: nat, historyLength: nat, bound: string)
    ensures active && elapsed == 1 && historyLength == 1 && bound == "2"
  {
    var session := StartedSession("2");
    WorkoutTableLookup("3");
    session.SetQuery(Some("3"));
    active, elapsed, historyLength := session.isActive, session.elapsedTime, |session.feedbackItems|;
    bound := if session.currentExercise.Some? then session.currentExercise.value.id else "";
  }
}
