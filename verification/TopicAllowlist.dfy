/**
 The recorder's topic allowlist: its generator and the validator that recovers the camera names
 (ros2_ws/src/vt_realsense_capture/vt_realsense_capture/recorder.py, lines 58-156, and
 ros2_ws/src/vt_realsense_capture/vt_realsense_capture/bag_contract.py, lines 7-46).
 */
module TopicAllowlist {
  import opened Prelude
  import opened TopicNames

  const SUFFIXES := ["color/image_raw", "depth/image_rect_raw", "color/camera_info", "frame_timing"]
  const TRACKER_ROLES := ["left_wrist", "right_wrist", "torso"]

  datatype TopicError =
    | NoCameras | UnsafeCamera | DuplicateCamera
    | UnsafeExtra | DuplicateExtra | ExtraInCore
    | NoTopics | UnsafeTopic | DuplicateTopic
    | NotThreeCameras | NotCanonicalCore | ExtrasNotSorted

  // ----- The generator -----

  function Topic(name: string, suffix: string): string {
    "/" + name + ("/" + suffix)
  }

  /** The topics of one camera. */
  function Block(name: string): seq<string> {
    [Topic(name, SUFFIXES[0]), Topic(name, SUFFIXES[1]), Topic(name, SUFFIXES[2]), Topic(name, SUFFIXES[3])]
  }

  function Blocks(names: seq<string>): seq<string> {
    if names == [] then [] else Blocks(names[..|names| - 1]) + Block(names[|names| - 1])
  }

  function CameraTopics(names: seq<string>): seq<string> {
    Blocks(Sort(names))
  }

  function TrackerTopic(role: string): string {
    "/" + "vive" + ("/" + role + ("/" + "sample"))
  }

  function TrackerTopics(): seq<string> {
    [TrackerTopic(TRACKER_ROLES[0]), TrackerTopic(TRACKER_ROLES[1]), TrackerTopic(TRACKER_ROLES[2])]
  }

  function ExpectedTopics(names: seq<string>, extras: seq<string>): seq<string> {
    CameraTopics(names) + TrackerTopics() + Sort(extras)
  }

  function AdditionalTopics(topics: seq<string>): Result<seq<string>, TopicError> {
    if exists t :: t in topics && !IsAbsoluteTopic(t) then Err(UnsafeExtra)
    else if !Distinct(topics) then Err(DuplicateExtra)
    else Ok(Sort(topics))
  }

  /** `required_topics`. */
  function RequiredTopics(names: seq<string>, additional: seq<string>): Result<seq<string>, TopicError> {
    if names == [] then Err(NoCameras)
    else if exists n :: n in names && !IsToken(n) then Err(UnsafeCamera)
    else if !Distinct(names) then Err(DuplicateCamera)
    else
      var extras := AdditionalTopics(additional);
      if extras.Err? then extras
      else if exists t :: t in ExpectedTopics(names, []) && t in extras.value then Err(ExtraInCore)
      else Ok(ExpectedTopics(names, extras.value))
  }

  // ----- The validator -----

  function ValidatedTopics(topics: seq<string>): Result<seq<string>, TopicError> {
    if topics == [] then Err(NoTopics)
    else if exists t :: t in topics && !IsAbsoluteTopic(t) then Err(UnsafeTopic)
    else if !Distinct(topics) then Err(DuplicateTopic)
    else Ok(topics)
  }

  predicate EndsWith(s: string, suffix: string) {
    |s| >= |suffix| && s[|s| - |suffix|..] == suffix
  }

  predicate EndsLikeCamera(topic: string) {
    exists i :: 0 <= i < |SUFFIXES| && EndsWith(topic, "/" + SUFFIXES[i])
  }

  /** First tokens of the topics that end like a camera's. */
  function Candidates(topics: seq<string>): seq<string> {
    if topics == [] then []
    else
      var last := topics[|topics| - 1];
      Candidates(topics[..|topics| - 1]) + if EndsLikeCamera(last) then [FirstToken(last)] else []
  }

  /** First occurrences, in order: the keys of `dict.fromkeys`. */
  function FromKeys(s: seq<string>): seq<string> {
    if s == [] then []
    else
      var before, last := FromKeys(s[..|s| - 1]), s[|s| - 1];
      if last in before then before else before + [last]
  }

  const CAMERA_TOPIC_COUNT := 12
  const CORE_TOPIC_COUNT := 15

  /** The camera names the validator reads off a topic list. */
  function CameraNames(topics: seq<string>): seq<string>
    requires |topics| >= CAMERA_TOPIC_COUNT
  {
    FromKeys(Candidates(topics[..CAMERA_TOPIC_COUNT]))
  }

  /** `_validated_record_topics`. */
  function ValidatedRecordTopics(topics: seq<string>): Result<seq<string>, TopicError> {
    var checked := ValidatedTopics(topics);
    if checked.Err? then checked
    else if |topics| < CORE_TOPIC_COUNT then Err(NotThreeCameras)
    else
      var names := CameraNames(topics);
      if |names| != 3 then Err(NotThreeCameras)
      else
        var core := CameraTopics(names) + TrackerTopics();
        if topics[..CORE_TOPIC_COUNT] != core then Err(NotCanonicalCore)
        else
          var extras := topics[CORE_TOPIC_COUNT..];
          if Sort(extras) != extras || exists t :: t in core && t in extras then Err(ExtrasNotSorted)
          else Ok(topics)
  }

  // ----- The topics of one camera -----

  lemma SuffixTopics(i: nat)
    requires i < |SUFFIXES|
    ensures IsAbsoluteTopic("/" + SUFFIXES[i])
  {
    match i
    case 0 => ImageTopic();
    case 1 => DepthTopic();
    case 2 => InfoTopic();
    case 3 => TimingTopic();
  }

  lemma ImageTopic()
    ensures IsAbsoluteTopic("/" + SUFFIXES[0])
  {
    TwoTokens("color", "image_raw");
    assert "/" + "color" + ("/" + "image_raw") == "/" + SUFFIXES[0];
  }

  lemma DepthTopic()
    ensures IsAbsoluteTopic("/" + SUFFIXES[1])
  {
    TwoTokens("depth", "image_rect_raw");
    assert "/" + "depth" + ("/" + "image_rect_raw") == "/" + SUFFIXES[1];
  }

  lemma InfoTopic()
    ensures IsAbsoluteTopic("/" + SUFFIXES[2])
  {
    TwoTokens("color", "camera_info");
    assert "/" + "color" + ("/" + "camera_info") == "/" + SUFFIXES[2];
  }

  lemma TimingTopic()
    ensures IsAbsoluteTopic("/" + SUFFIXES[3])
  {
    TwoTokens("color", "frame_timing");
  }

  /** A camera's topic is safe, names the camera, and ends like a camera's. */
  lemma TopicFacts(name: string, i: nat)
    requires IsToken(name) && i < |SUFFIXES|
    ensures var t := Topic(name, SUFFIXES[i]);
            t != "" && IsAbsoluteTopic(t) && FirstToken(t) == name && EndsLikeCamera(t)
  {
    var rest := "/" + SUFFIXES[i];
    SuffixTopics(i);
    PrefixToken(name, rest);
    TokenFirst(name, rest);
    var t := Topic(name, SUFFIXES[i]);
    assert t == ("/" + name) + rest;
    assert t[|t| - |rest|..] == rest;
    assert EndsWith(t, "/" + SUFFIXES[i]);
  }

  lemma SuffixesDiffer(i: nat, j: nat)
    requires i < j < |SUFFIXES|
    ensures SUFFIXES[i] != SUFFIXES[j]
  {
    assert |SUFFIXES[0]| == 15 && |SUFFIXES[1]| == 20 && |SUFFIXES[2]| == 17 && |SUFFIXES[3]| == 12;
  }

  lemma TopicsDiffer(name: string, i: nat, j: nat)
    requires i < j < |SUFFIXES|
    ensures Topic(name, SUFFIXES[i]) != Topic(name, SUFFIXES[j])
  {
    SuffixesDiffer(i, j);
    var s, t := Topic(name, SUFFIXES[i]), Topic(name, SUFFIXES[j]);
    assert s[|name| + 2..] == SUFFIXES[i] && t[|name| + 2..] == SUFFIXES[j];
  }

  ghost predicate AllNamed(topics: seq<string>, name: string) {
    forall t :: t in topics ==> t != "" && IsAbsoluteTopic(t) && FirstToken(t) == name && EndsLikeCamera(t)
  }

  lemma BlockIsDistinct(name: string)
    ensures Distinct(Block(name))
  {
    TopicsDiffer(name, 0, 1);
    TopicsDiffer(name, 0, 2);
    TopicsDiffer(name, 0, 3);
    TopicsDiffer(name, 1, 2);
    TopicsDiffer(name, 1, 3);
    TopicsDiffer(name, 2, 3);
  }

  lemma BlockIsNamed(name: string)
    requires IsToken(name)
    ensures AllNamed(Block(name), name)
  {
    TopicFacts(name, 0);
    TopicFacts(name, 1);
    TopicFacts(name, 2);
    TopicFacts(name, 3);
  }

  lemma BlockFacts(name: string)
    requires IsToken(name)
    ensures |Block(name)| == 4 && Distinct(Block(name)) && AllNamed(Block(name), name)
  {
    BlockIsDistinct(name);
    BlockIsNamed(name);
  }

  lemma TrackerTopicFacts(role: string)
    requires IsToken(role)
    ensures var t := TrackerTopic(role); IsAbsoluteTopic(t) && |t| == 13 + |role| && t[|t| - 1] == 'e'
  {
    TwoTokens(role, "sample");
    PrefixToken("vive", "/" + role + ("/" + "sample"));
    assert TrackerTopic(role) == ("/" + "vive" + ("/" + role)) + "/sample";
  }

  lemma TrackerFacts()
    ensures Distinct(TrackerTopics())
    ensures forall t :: t in TrackerTopics() ==> IsAbsoluteTopic(t) && t != "" && t[|t| - 1] == 'e'
  {
    var left, right, torso := TRACKER_ROLES[0], TRACKER_ROLES[1], TRACKER_ROLES[2];
    assert IsToken(left) && IsToken(right) && IsToken(torso);
    assert |left| == 10 && |right| == 11 && |torso| == 5;
    TrackerTopicFacts(left);
    TrackerTopicFacts(right);
    TrackerTopicFacts(torso);
    DistinctByLength(TrackerTopic(left), TrackerTopic(right), TrackerTopic(torso));
  }

  lemma DistinctByLength(a: string, b: string, c: string)
    requires |a| != |b| && |b| != |c| && |a| != |c|
    ensures Distinct([a, b, c])
  {
  }

  /** No camera topic is a tracker topic, whatever the camera is called. */
  lemma CameraTopicsAreNotTracker(name: string)
    ensures forall t :: t in Block(name) ==> t != "" && t[|t| - 1] != 'e'
  {
    forall i | 0 <= i < 4 ensures Block(name)[i] != "" && Block(name)[i][|Block(name)[i]| - 1] != 'e' {
      var t := Topic(name, SUFFIXES[i]);
      assert t[|t| - 1] == SUFFIXES[i][|SUFFIXES[i]| - 1];
    }
  }

  // ----- Three cameras -----

  lemma DistinctConcat(a: seq<string>, b: seq<string>)
    requires Distinct(a) && Distinct(b) && forall t :: t in a ==> t !in b
    ensures Distinct(a + b)
  {
    forall i, j | 0 <= i < j < |a + b| ensures (a + b)[i] != (a + b)[j] {
      if i < |a| <= j {
        assert (a + b)[i] in a && (a + b)[j] == b[j - |a|];
      }
    }
  }

  lemma BlocksOfThree(a: string, b: string, c: string)
    ensures Blocks([a, b, c]) == Block(a) + Block(b) + Block(c)
  {
    assert [a, b, c][..2] == [a, b] && [a, b][..1] == [a] && [a][..0] == [];
    assert Blocks([a]) == [] + Block(a);
  }

  lemma BlocksDisjoint(a: string, b: string)
    requires IsToken(a) && IsToken(b) && a != b
    ensures forall t :: t in Block(a) ==> t !in Block(b)
  {
    BlockFacts(a);
    BlockFacts(b);
  }

  /** The core of three cameras is safe and without duplicates. */
  lemma CoreFacts(a: string, b: string, c: string)
    requires IsToken(a) && IsToken(b) && IsToken(c) && a != b && a != c && b != c
    ensures var core := Block(a) + Block(b) + Block(c) + TrackerTopics();
            |core| == CORE_TOPIC_COUNT && Distinct(core) && forall t :: t in core ==> IsAbsoluteTopic(t)
  {
    BlockFacts(a);
    BlockFacts(b);
    BlockFacts(c);
    BlocksDisjoint(a, b);
    BlocksDisjoint(a, c);
    BlocksDisjoint(b, c);
    DistinctConcat(Block(a), Block(b));
    DistinctConcat(Block(a) + Block(b), Block(c));
    TrackerFacts();
    CameraTopicsAreNotTracker(a);
    CameraTopicsAreNotTracker(b);
    CameraTopicsAreNotTracker(c);
    DistinctConcat(Block(a) + Block(b) + Block(c), TrackerTopics());
  }

  // ----- Recovering the names -----

  lemma {:induction false} CandidatesConcat(a: seq<string>, b: seq<string>)
    ensures Candidates(a + b) == Candidates(a) + Candidates(b)
  {
    if b == [] {
      assert a + b == a;
    } else {
      assert (a + b)[..|a + b| - 1] == a + b[..|b| - 1];
      CandidatesConcat(a, b[..|b| - 1]);
    }
  }

  lemma CandidatesOfBlock(name: string)
    requires IsToken(name)
    ensures AllNamed(Block(name), name) && Candidates(Block(name)) == [name, name, name, name]
  {
    BlockFacts(name);
    var t := Block(name);
    assert t[..3][..2] == t[..2] && t[..2][..1] == t[..1] && t[..1][..0] == [];
    assert Candidates(t[..1]) == [name];
    assert Candidates(t[..2]) == [name, name];
    assert Candidates(t[..3]) == [name, name, name];
  }

  /** However often a new name is repeated, it is kept once. */
  lemma {:induction false} FromKeysRepeated(s: seq<string>, again: seq<string>, x: string)
    requires x !in FromKeys(s)
    requires again != [] && forall i :: 0 <= i < |again| ==> again[i] == x
    ensures FromKeys(s + again) == FromKeys(s) + [x]
  {
    var t, init := s + again, again[..|again| - 1];
    assert t[..|t| - 1] == s + init && t[|t| - 1] == x;
    if init == [] {
      assert s + init == s;
    } else {
      FromKeysRepeated(s, init, x);
    }
  }

  lemma NamesOfBlocks(a: string, b: string, c: string)
    requires a != b && a != c && b != c
    ensures FromKeys([a, a, a, a] + [b, b, b, b] + [c, c, c, c]) == [a, b, c]
  {
    FromKeysRepeated([], [a, a, a, a], a);
    assert [] + [a, a, a, a] == [a, a, a, a];
    FromKeysRepeated([a, a, a, a], [b, b, b, b], b);
    FromKeysRepeated([a, a, a, a] + [b, b, b, b], [c, c, c, c], c);
  }

  lemma NamesRecovered(a: string, b: string, c: string, topics: seq<string>)
    requires IsToken(a) && IsToken(b) && IsToken(c) && a != b && a != c && b != c
    requires |topics| >= CAMERA_TOPIC_COUNT && topics[..CAMERA_TOPIC_COUNT] == Block(a) + Block(b) + Block(c)
    ensures CameraNames(topics) == [a, b, c]
  {
    CandidatesOfBlock(a);
    CandidatesOfBlock(b);
    CandidatesOfBlock(c);
    CandidatesConcat(Block(a), Block(b));
    CandidatesConcat(Block(a) + Block(b), Block(c));
    NamesOfBlocks(a, b, c);
  }

  // ----- The round trip -----

  /** What the generator makes for three cameras, the validator accepts, and it reads the cameras back. */
  lemma GeneratedIsAccepted(names: seq<string>, extras: seq<string>)
    requires |names| == 3 && RequiredTopics(names, extras).Ok?
    ensures var topics := RequiredTopics(names, extras).value;
            && ValidatedRecordTopics(topics) == Ok(topics)
            && CameraNames(topics) == Sort(names)
            && topics[CORE_TOPIC_COUNT..] == Sort(extras)
  {
    var topics := RequiredTopics(names, extras).value;
    SortKeeps(names);
    SortTwice(names);
    SortKeeps(extras);
    SortTwice(extras);
    var a, b, c := Sort(names)[0], Sort(names)[1], Sort(names)[2];
    assert Sort(names) == [a, b, c];
    assert a in names && b in names && c in names;
    BlocksOfThree(a, b, c);
    CoreFacts(a, b, c);
    var core := Block(a) + Block(b) + Block(c) + TrackerTopics();
    assert ExpectedTopics(names, []) == core + [];
    assert topics == core + Sort(extras);
    forall t | t in core ensures t !in Sort(extras) {
      assert t in ExpectedTopics(names, []);
    }
    DistinctConcat(core, Sort(extras));
    assert topics[..CORE_TOPIC_COUNT] == core && topics[CORE_TOPIC_COUNT..] == Sort(extras);
    assert topics[..CAMERA_TOPIC_COUNT] == Block(a) + Block(b) + Block(c);
    NamesRecovered(a, b, c, topics);
  }

  lemma {:induction false} CandidatesAreTokens(topics: seq<string>)
    requires forall t :: t in topics ==> IsAbsoluteTopic(t)
    ensures forall n :: n in Candidates(topics) ==> IsToken(n)
  {
    if topics != [] {
      var last := topics[|topics| - 1];
      assert last in topics;
      CandidatesAreTokens(topics[..|topics| - 1]);
      FirstTokenIsToken(last);
    }
  }

  lemma {:induction false} FromKeysIsDistinct(s: seq<string>)
    ensures Distinct(FromKeys(s)) && forall x :: x in FromKeys(s) <==> x in s
  {
    if s != [] {
      FromKeysIsDistinct(s[..|s| - 1]);
      assert s == s[..|s| - 1] + [s[|s| - 1]];
    }
  }

  /** The names read back are safe and distinct. */
  lemma NamesReadAreSafe(topics: seq<string>)
    requires |topics| >= CAMERA_TOPIC_COUNT && forall t :: t in topics ==> IsAbsoluteTopic(t)
    ensures Distinct(CameraNames(topics)) && forall n :: n in CameraNames(topics) ==> IsToken(n)
  {
    assert forall t :: t in topics[..CAMERA_TOPIC_COUNT] ==> t in topics;
    CandidatesAreTokens(topics[..CAMERA_TOPIC_COUNT]);
    FromKeysIsDistinct(Candidates(topics[..CAMERA_TOPIC_COUNT]));
  }

  lemma ExtrasAreSafe(topics: seq<string>, n: nat)
    requires n <= |topics| && ValidatedTopics(topics).Ok? && Sort(topics[n..]) == topics[n..]
    ensures AdditionalTopics(topics[n..]) == Ok(topics[n..])
  {
    var extras := topics[n..];
    assert forall t :: t in extras ==> t in topics;
    forall i, j | 0 <= i < j < |extras| ensures extras[i] != extras[j] {
      assert extras[i] == topics[n + i] && extras[j] == topics[n + j];
    }
  }

  /** What the validator accepts is what the generator makes from the names read back and the extra topics. */
  lemma AcceptedIsGenerated(topics: seq<string>)
    requires ValidatedRecordTopics(topics).Ok?
    ensures |topics| >= CORE_TOPIC_COUNT
    ensures |CameraNames(topics)| == 3
    ensures RequiredTopics(CameraNames(topics), topics[CORE_TOPIC_COUNT..]) == Ok(topics)
  {
    var names, extras := CameraNames(topics), topics[CORE_TOPIC_COUNT..];
    NamesReadAreSafe(topics);
    ExtrasAreSafe(topics, CORE_TOPIC_COUNT);
    var core := CameraTopics(names) + TrackerTopics();
    assert ExpectedTopics(names, []) == core + [] == core;
    assert topics == topics[..CORE_TOPIC_COUNT] + extras;
  }

  /**
   The validator accepts exactly the lists the generator makes for three cameras and some extra topics,
   and the list determines the cameras, up to their order, and the extra topics, up to theirs.
   */
  lemma ValidatorInvertsGenerator(topics: seq<string>)
    ensures ValidatedRecordTopics(topics).Ok?
            <==> exists names, extras :: |names| == 3 && RequiredTopics(names, extras) == Ok(topics)
    ensures forall names, extras :: |names| == 3 && RequiredTopics(names, extras) == Ok(topics) ==>
              && ValidatedRecordTopics(topics) == Ok(topics)
              && CameraNames(topics) == Sort(names) && topics[CORE_TOPIC_COUNT..] == Sort(extras)
  {
    if ValidatedRecordTopics(topics).Ok? {
      AcceptedIsGenerated(topics);
    }
    forall names: seq<string>, extras | |names| == 3 && RequiredTopics(names, extras) == Ok(topics)
      ensures ValidatedRecordTopics(topics) == Ok(topics)
      ensures |topics| >= CORE_TOPIC_COUNT
      ensures CameraNames(topics) == Sort(names) && topics[CORE_TOPIC_COUNT..] == Sort(extras)
    {
      GeneratedIsAccepted(names, extras);
    }
  }
}
