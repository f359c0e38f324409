/**
 The topics the recorder's allowlist holds, name by name
 (ros2_ws/src/vt_realsense_capture/vt_realsense_capture/recorder.py, lines 58-84, and
 ros2_ws/src/vt_realsense_capture/vt_realsense_capture/bag_contract.py, lines 7-46).
 */
module AllowlistTopics {
  import opened Prelude
  import opened TopicNames
  import opened TopicAllowlist

  /** The four streams of a camera, in order. */
  function Stream(j: nat): string
    requires j < 4
  {
    match j
    case 0 => "/color/image_raw"
    case 1 => "/depth/image_rect_raw"
    case 2 => "/color/camera_info"
    case 3 => "/frame_timing"
  }

  const TRACKERS := ["/vive/left_wrist/sample", "/vive/right_wrist/sample", "/vive/torso/sample"]

  lemma StreamOfTopic(name: string, j: nat)
    requires j < 4
    ensures Block(name)[j] == "/" + name + Stream(j)
  {
    assert "/" + SUFFIXES[j] == Stream(j);
  }

  lemma TrackersAre()
    ensures TrackerTopics() == TRACKERS
  {
    assert TrackerTopic(TRACKER_ROLES[0]) == TRACKERS[0];
    assert TrackerTopic(TRACKER_ROLES[1]) == TRACKERS[1];
    assert TrackerTopic(TRACKER_ROLES[2]) == TRACKERS[2];
  }

  lemma {:induction false} BlocksAt(names: seq<string>)
    ensures |Blocks(names)| == 4 * |names|
    ensures forall i, j :: 0 <= i < |names| && 0 <= j < 4 ==> Blocks(names)[4 * i + j] == Block(names[i])[j]
  {
    if names != [] {
      var n := |names| - 1;
      BlocksAt(names[..n]);
      forall i, j | 0 <= i < |names| && 0 <= j < 4 ensures Blocks(names)[4 * i + j] == Block(names[i])[j] {
        if i < n {
          assert names[..n][i] == names[i];
          assert Blocks(names)[4 * i + j] == Blocks(names[..n])[4 * i + j];
        }
      }
    }
  }

  lemma CameraTopicAt(names: seq<string>, rest: seq<string>, i: nat, j: nat)
    requires i < |names| && j < 4
    ensures |Blocks(names)| == 4 * |names|
    ensures (Blocks(names) + rest)[4 * i + j] == "/" + names[i] + Stream(j)
  {
    BlocksAt(names);
    StreamOfTopic(names[i], j);
  }

  lemma ExtrasAre(extras: seq<string>)
    ensures AdditionalTopics(extras).Ok?
            <==> Distinct(extras) && forall t :: t in extras ==> IsAbsoluteTopic(t)
    ensures AdditionalTopics(extras).Ok? ==> AdditionalTopics(extras).value == Sort(extras)
  {
  }

  lemma ExpectedAre(names: seq<string>, extras: seq<string>)
    ensures ExpectedTopics(names, Sort(extras)) == Blocks(Sort(names)) + (TRACKERS + Sort(extras))
  {
    SortTwice(extras);
    TrackersAre();
    Regroup(Blocks(Sort(names)), TRACKERS, Sort(extras));
  }

  lemma Regroup(a: seq<string>, b: seq<string>, c: seq<string>)
    ensures a + b + c == a + (b + c)
  {
  }

  lemma TopicsAre(names: seq<string>, extras: seq<string>)
    requires RequiredTopics(names, extras).Ok?
    ensures RequiredTopics(names, extras).value == Blocks(Sort(names)) + (TRACKERS + Sort(extras))
  {
    ExtrasAre(extras);
    ExpectedAre(names, extras);
  }

  /** Four topics for each camera in the order of the names, then the trackers, then the extra topics in order. */
  lemma GeneratedTopics(names: seq<string>, extras: seq<string>)
    requires RequiredTopics(names, extras).Ok?
    ensures |Sort(names)| == |names|
    ensures var topics, n := RequiredTopics(names, extras).value, 4 * |names|;
            && |topics| == n + 3 + |extras|
            && (forall i, j :: 0 <= i < |names| && 0 <= j < 4 ==>
                                 topics[4 * i + j] == "/" + Sort(names)[i] + Stream(j))
            && topics[n..n + 3] == TRACKERS
            && topics[n + 3..] == Sort(extras)
  {
    TopicsAre(names, extras);
    SortKeeps(names);
    SortKeeps(extras);
    BlocksAt(Sort(names));
    Split(Blocks(Sort(names)), TRACKERS, Sort(extras));
    forall i, j | 0 <= i < |names| && 0 <= j < 4
      ensures RequiredTopics(names, extras).value[4 * i + j] == "/" + Sort(names)[i] + Stream(j)
    {
      CameraTopicAt(Sort(names), TRACKERS + Sort(extras), i, j);
    }
  }

  lemma Split(a: seq<string>, b: seq<string>, c: seq<string>)
    ensures (a + (b + c))[|a|..|a| + |b|] == b && (a + (b + c))[|a| + |b|..] == c
  {
  }

  /** The topic is one of a camera's streams or of the trackers. */
  ghost predicate IsCore(names: seq<string>, t: string) {
    t in TRACKERS || exists n, j: nat :: n in names && j < 4 && t == "/" + n + Stream(j)
  }

  lemma CoreSplits(names: seq<string>, t: string)
    ensures t in ExpectedTopics(names, []) <==> t in Blocks(Sort(names)) || t in TRACKERS
  {
    TrackersAre();
    assert ExpectedTopics(names, []) == Blocks(Sort(names)) + TRACKERS + [];
  }

  lemma {:induction false} InBlocks(names: seq<string>, t: string)
    ensures t in Blocks(names) <==> exists n :: n in names && t in Block(n)
  {
    if names != [] {
      var init, last := names[..|names| - 1], names[|names| - 1];
      InBlocks(init, t);
      assert names == init + [last];
    }
  }

  lemma InBlock(name: string, t: string)
    ensures t in Block(name) <==> exists j: nat :: j < 4 && t == "/" + name + Stream(j)
  {
    forall j: nat | j < 4 ensures Block(name)[j] == "/" + name + Stream(j) {
      StreamOfTopic(name, j);
    }
    if t in Block(name) {
      var j: nat :| j < 4 && Block(name)[j] == t;
      assert t == "/" + name + Stream(j);
    }
  }

  lemma CoreIs(names: seq<string>, t: string)
    ensures t in ExpectedTopics(names, []) <==> IsCore(names, t)
  {
    CoreSplits(names, t);
    SortKeeps(names);
    InBlocks(Sort(names), t);
    forall n | n in names ensures t in Block(n) <==> exists j: nat :: j < 4 && t == "/" + n + Stream(j) {
      InBlock(n, t);
    }
  }

  /** The generator accepts distinct safe names and distinct safe extra topics beside the core, and nothing else. */
  lemma GeneratorAcceptsIff(names: seq<string>, extras: seq<string>)
    ensures RequiredTopics(names, extras).Ok?
            <==> && names != [] && Distinct(names) && (forall n :: n in names ==> IsToken(n))
                 && Distinct(extras) && forall t :: t in extras ==> IsAbsoluteTopic(t) && !IsCore(names, t)
  {
    ExtrasAre(extras);
    SortKeeps(extras);
    forall t ensures t in ExpectedTopics(names, []) <==> IsCore(names, t) {
      CoreIs(names, t);
    }
  }
}
