/**
 MQTT topics: their levels (section 4.7.1.1 of MQTT Version 3.1.1), the validity check of
 src/traffic_warden.cpp, and the level insertion that two stream transformers perform.
 */
module Topics {
  import opened Text

  /** The levels of a topic, read character by character: every '/' ends one, and each may be empty. */
  function Levels(topic: string): (levels: seq<string>)
    ensures levels != []
  {
    if topic == "" then [""]
    else if topic[0] == '/' then [""] + Levels(topic[1..])
    else
      var rest := Levels(topic[1..]);
      [[topic[0]] + rest[0]] + rest[1..]
  }

  function LevelsOfAll(pieces: seq<string>): seq<string> {
    if pieces == [] then [] else Levels(pieces[0]) + LevelsOfAll(pieces[1..])
  }

  predicate SlashFree(s: string) {
    '/' !in s
  }

  // ---- Splitting at "/" yields the levels ----

  lemma {:induction false} LevelsOfSlashFree(s: string)
    requires SlashFree(s)
    ensures Levels(s) == [s]
  {
    if s == "" {
    } else {
      assert s == [s[0]] + s[1..];
      LevelsOfSlashFree(s[1..]);
    }
  }

  lemma {:induction false} LevelsAreSlashFree(topic: string)
    ensures forall level | level in Levels(topic) :: SlashFree(level)
  {
    if topic == "" {
    } else {
      LevelsAreSlashFree(topic[1..]);
      var levels, rest := Levels(topic), Levels(topic[1..]);
      forall i | 0 <= i < |levels|
        ensures SlashFree(levels[i])
      {
        if topic[0] == '/' {
          assert i > 0 ==> levels[i] == rest[i - 1];
        } else {
          assert rest[0] in rest;
          assert levels[i] == if i == 0 then [topic[0]] + rest[0] else rest[i];
        }
      }
    }
  }

  lemma {:induction false} LevelsOfConcat(a: string, b: string)
    ensures Levels(a + "/" + b) == Levels(a) + Levels(b)
  {
    var s := a + "/" + b;
    if a == "" {
      assert s[1..] == b;
    } else {
      assert s[1..] == a[1..] + "/" + b;
      LevelsOfConcat(a[1..], b);
    }
  }

  lemma {:induction false} FreeOfSlash(s: string)
    ensures Free(s, "/") <==> SlashFree(s)
  {
    forall i | 0 <= i < |s|
      ensures OccursAt(s, "/", i) <==> s[i] == '/'
    {
      assert s[i..i + 1] == [s[i]];
    }
  }

  lemma {:induction false} HeadIsSlashFree(topic: string)
    requires Find(topic, "/").Some?
    ensures SlashFree(topic[..Find(topic, "/").value])
  {
    var n := Find(topic, "/").value;
    FindFirst(topic, "/", n);
    forall i | 0 <= i < n
      ensures topic[i] != '/'
    {
      assert !OccursAt(topic, "/", i);
      assert topic[i..i + 1] == [topic[i]];
    }
  }

  lemma {:induction false} SplitIsLevels(topic: string)
    ensures Split(topic, "/") == if topic == "" then [] else Levels(topic)
    decreases |topic|
  {
    if topic == "" {
    } else {
      var index := Find(topic, "/");
      if index.None? {
        FindFirst(topic, "/", 0);
        FreeOfSlash(topic);
        LevelsOfSlashFree(topic);
      } else {
        var head, rest := topic[..index.value], topic[index.value + 1..];
        assert topic == head + "/" + rest;
        LevelsOfConcat(head, rest);
        HeadIsSlashFree(topic);
        LevelsOfSlashFree(head);
        if rest != "" {
          SplitIsLevels(rest);
        }
      }
    }
  }

  lemma {:induction false} LevelsOfJoin(pieces: seq<string>)
    requires pieces != []
    ensures Levels(Join(pieces, "/")) == LevelsOfAll(pieces)
  {
    if |pieces| > 1 {
      LevelsOfJoin(pieces[1..]);
      LevelsOfConcat(pieces[0], Join(pieces[1..], "/"));
    } else {
      assert pieces[1..] == [];
    }
  }

  lemma {:induction false} LevelsOfAllConcat(a: seq<string>, b: seq<string>)
    ensures LevelsOfAll(a + b) == LevelsOfAll(a) + LevelsOfAll(b)
  {
    if a == [] {
      assert a + b == b;
    } else {
      assert (a + b)[1..] == a[1..] + b;
      LevelsOfAllConcat(a[1..], b);
    }
  }

  lemma {:induction false} LevelsOfAllSlashFree(pieces: seq<string>)
    requires forall piece | piece in pieces :: SlashFree(piece)
    ensures LevelsOfAll(pieces) == pieces
  {
    if pieces == [] {
    } else {
      LevelsOfSlashFree(pieces[0]);
      LevelsOfAllSlashFree(pieces[1..]);
    }
  }

  /** For "/" the lists that cutting gives back are the ones with '/'-free pieces. */
  lemma {:induction false} SlashCuttable(pieces: seq<string>)
    ensures Cuttable(pieces, "/") <==> forall piece | piece in pieces :: SlashFree(piece)
  {
    forall i | 0 <= i < |pieces|
      ensures Fits(pieces, i, "/") <==> SlashFree(pieces[i])
    {
      SlashFits(pieces, i);
    }
    if Cuttable(pieces, "/") {
      assert forall i | 0 <= i < |pieces| :: Fits(pieces, i, "/");
    }
  }

  lemma {:induction false} SlashFits(pieces: seq<string>, i: nat)
    requires i < |pieces|
    ensures Fits(pieces, i, "/") <==> SlashFree(pieces[i])
  {
    var piece := pieces[i];
    FreeOfSlash(piece);
    FindFirst(piece + "/", "/", |piece|);
    forall k | 0 <= k < |piece|
      ensures OccursAt(piece + "/", "/", k) <==> OccursAt(piece, "/", k)
    {
      OccursInPrefix(piece, "/", "/", k);
    }
    assert OccursAt(piece + "/", "/", |piece|);
  }

  lemma {:induction false} TopicRoundTrip(pieces: seq<string>)
    ensures Split(Join(pieces, "/"), "/") == pieces <==>
              pieces != [""] && forall piece | piece in pieces :: SlashFree(piece)
  {
    SplitJoinExact(pieces, "/");
    SlashCuttable(pieces);
  }

  // ---- Inserting levels ----

  /** The branch both topic-writing transformers share: append past the end, insert otherwise. */
  function InsertLevel(topic: string, index: nat, segment: string): string {
    var levels := Split(topic, "/");
    if |levels| <= index then topic + "/" + segment
    else Join(levels[..index] + [segment] + levels[index..], "/")
  }

  function Min(a: nat, b: nat): nat {
    if a < b then a else b
  }

  function Splice(levels: seq<string>, index: nat, segment: string): seq<string> {
    var p := Min(index, |levels|);
    levels[..p] + Levels(segment) + levels[p..]
  }

  /** On a non-empty topic both branches splice the segment's levels in; the empty topic always gets them last. */
  lemma {:induction false} InsertSplices(topic: string, index: nat, segment: string)
    ensures topic != "" ==> Levels(InsertLevel(topic, index, segment)) == Splice(Levels(topic), index, segment)
    ensures topic == "" ==> Levels(InsertLevel(topic, index, segment)) == [""] + Levels(segment)
  {
    SplitIsLevels(topic);
    LevelsOfConcat(topic, segment);
    var levels := Levels(topic);
    if topic != "" {
      if index < |levels| {
        LevelsAreSlashFree(topic);
        LevelsOfJoin(levels[..index] + [segment] + levels[index..]);
        LevelsOfAllConcat(levels[..index] + [segment], levels[index..]);
        LevelsOfAllConcat(levels[..index], [segment]);
        LevelsOfAllSlashFree(levels[..index]);
        LevelsOfAllSlashFree(levels[index..]);
        assert LevelsOfAll([segment]) == Levels(segment);
      } else {
        assert levels[..|levels|] == levels && levels[|levels|..] == [];
      }
    }
  }

  /** The levels a transformer sees: the empty topic has none. */
  function LevelsRead(topic: string): seq<string> {
    if topic == "" then [] else Levels(topic)
  }

  /** The topic is the other one with the segment's levels spliced in, after an empty one if there was none. */
  predicate Spliced(topic: string, index: nat, segment: string, result: string) {
    Levels(result) == if topic == "" then [""] + Levels(segment) else Splice(Levels(topic), index, segment)
  }

  lemma {:induction false} InsertLength(topic: string, index: nat, segment: string)
    ensures |InsertLevel(topic, index, segment)| == |topic| + 1 + |segment|
  {
    var levels := Split(topic, "/");
    if index < |levels| {
      JoinSplit(topic, "/");
      JoinInsertLength(levels, index, segment, "/");
    }
  }

  // ---- Validity ----

  /** is_valid_topic. */
  predicate IsValidTopic(topic: string) {
    && topic != ""
    && !(topic != "/" && (topic[0] == '/' || topic[|topic| - 1] == '/'))
  }

  predicate BoundedByLevels(levels: seq<string>) {
    levels != [] && levels[0] != "" && levels[|levels| - 1] != ""
  }

  lemma {:induction false} EndLevels(topic: string)
    ensures Levels(topic)[0] == "" <==> topic == "" || topic[0] == '/'
    ensures Levels(topic)[|Levels(topic)| - 1] == "" <==> topic == "" || topic[|topic| - 1] == '/'
  {
    if topic == "" {
    } else {
      EndLevels(topic[1..]);
      var rest := Levels(topic[1..]);
      if |topic| == 1 {
        assert topic[1..] == "" && rest == [""];
      } else {
        assert topic[|topic| - 1] == topic[1..][|topic[1..]| - 1];
      }
      if topic[0] != '/' && |rest| == 1 {
        assert Levels(topic) == [[topic[0]] + rest[0]];
        if |topic| > 1 {
          OneLevel(topic[1..]);
          assert topic[1..][|topic| - 2] in topic[1..];
        }
      }
    }
  }

  lemma {:induction false} OneLevel(topic: string)
    requires |Levels(topic)| == 1
    ensures SlashFree(topic)
  {
    if topic == "" {
    } else {
      OneLevel(topic[1..]);
      assert topic == [topic[0]] + topic[1..];
    }
  }

  /** A topic is valid exactly when it is "/" or its first and last levels have a character. */
  lemma {:induction false} ValidByLevels(topic: string)
    ensures IsValidTopic(topic) <==> topic == "/" || BoundedByLevels(Split(topic, "/"))
  {
    SplitIsLevels(topic);
    EndLevels(topic);
  }

  /**
   Exactly when an insertion yields a valid topic: at the front the segment must not start with '/', at the
   end it must not end with one, and the side it does not touch must have been good before.
   */
  lemma {:induction false} InsertValidExact(topic: string, index: nat, segment: string)
    requires topic != ""
    ensures IsValidTopic(InsertLevel(topic, index, segment)) <==>
              && (if index == 0 then segment != "" && segment[0] != '/' else topic[0] != '/')
              && (if index >= |Levels(topic)| then segment != "" && segment[|segment| - 1] != '/'
                  else topic[|topic| - 1] != '/')
  {
    var result := InsertLevel(topic, index, segment);
    InsertLength(topic, index, segment);
    assert result != "/";
    ValidByLevels(result);
    SplitIsLevels(result);
    InsertSplices(topic, index, segment);
    EndLevels(topic);
    EndLevels(segment);
    SpliceEnds(Levels(topic), index, segment);
  }

  lemma {:induction false} SpliceEnds(levels: seq<string>, index: nat, segment: string)
    requires levels != []
    ensures
      var spliced, inner := Splice(levels, index, segment), Levels(segment);
      && spliced != []
      && spliced[0] == (if index == 0 then inner[0] else levels[0])
      && spliced[|spliced| - 1] == (if index >= |levels| then inner[|inner| - 1] else levels[|levels| - 1])
  {
  }
}
