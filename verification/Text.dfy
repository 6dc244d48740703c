/** Text primitives of src/utilities.cpp: cutting a string at a token and gluing the pieces back. */
module Text {
  import opened Wrappers

  /** The token stands at position i of s. */
  predicate OccursAt(s: string, token: string, i: nat) {
    i + |token| <= |s| && s[i..i + |token|] == token
  }

  ghost predicate Free(s: string, token: string) {
    forall i: nat :: !OccursAt(s, token, i)
  }

  /** std::string::find, from position i on. */
  function FindFrom(s: string, token: string, i: nat): (r: Option<nat>)
    requires i <= |s|
    ensures r.Some? ==> OccursAt(s, token, r.value)
    decreases |s| - i
  {
    if OccursAt(s, token, i) then Some(i)
    else if i == |s| then None
    else FindFrom(s, token, i + 1)
  }

  function Find(s: string, token: string): (r: Option<nat>)
    ensures r.Some? ==> OccursAt(s, token, r.value)
  {
    FindFrom(s, token, 0)
  }

  lemma {:induction false} FindFromFirst(s: string, token: string, i: nat)
    requires i <= |s|
    ensures
      match FindFrom(s, token, i)
      case None => forall k: nat | i <= k :: !OccursAt(s, token, k)
      case Some(first) => i <= first && forall k: nat | i <= k < first :: !OccursAt(s, token, k)
    decreases |s| - i
  {
    if OccursAt(s, token, i) || i >= |s| {
    } else {
      FindFromFirst(s, token, i + 1);
    }
  }

  /** What is found is the first occurrence, and nothing is found exactly where there is none. */
  lemma {:induction false} FindFirst(s: string, token: string, i: nat)
    ensures Find(s, token) == Some(i) <==> OccursAt(s, token, i) && forall k: nat | k < i :: !OccursAt(s, token, k)
    ensures Find(s, token) == None <==> Free(s, token)
  {
    FindFromFirst(s, token, 0);
  }

  /** The pieces of s between successive first occurrences of the token. */
  function Split(s: string, token: string): seq<string>
    requires token != "" || s == ""
    decreases |s|
  {
    if s == "" then []
    else match Find(s, token)
      case None => [s]
      case Some(i) =>
        var rest := s[i + |token|..];
        [s[..i]] + if rest == "" then [""] else Split(rest, token)
  }

  function Join(pieces: seq<string>, token: string): string {
    if |pieces| == 0 then ""
    else if |pieces| == 1 then pieces[0]
    else pieces[0] + token + Join(pieces[1..], token)
  }

  /** A piece that others follow ends where its token first stands; the last holds no token. */
  ghost predicate Fits(pieces: seq<string>, i: nat, token: string)
    requires i < |pieces|
  {
    if i < |pieces| - 1 then Find(pieces[i] + token, token) == Some(|pieces[i]|) else Free(pieces[i], token)
  }

  /** The lists that cutting finds again in what they are joined to. */
  ghost predicate Cuttable(pieces: seq<string>, token: string) {
    forall i | 0 <= i < |pieces| :: Fits(pieces, i, token)
  }

  /** The pieces of a cut that has come to the rest. */
  function Resumed(done: seq<string>, rest: string, token: string): seq<string>
    requires token != "" || rest == ""
  {
    done + Split(rest, token)
  }

  // ---- The two loops of the source ----

  method SplitString(s: string, token: string) returns (result: seq<string>)
    requires token != "" || s == ""  // with an empty token the loop makes no progress
    ensures result == Split(s, token)
    ensures Join(result, token) == s
    ensures token != "" ==> forall piece | piece in result :: Free(piece, token)
  {
    var rest := s;
    result := [];
    while rest != ""
      invariant token != "" || rest == ""
      invariant Resumed(result, rest, token) == Split(s, token)
      decreases |rest|
    {
      CutOnce(result, rest, token);
      var index := Find(rest, token);
      if index.Some? {
        result := result + [rest[..index.value]];
        rest := rest[index.value + |token|..];
        if rest == "" {
          result := result + [rest];
        }
      } else {
        result := result + [rest];
        rest := "";
      }
    }
    CutDone(result, s, token);
  }

  lemma {:induction false} CutDone(done: seq<string>, s: string, token: string)
    requires token != "" || s == ""
    requires Resumed(done, "", token) == Split(s, token)
    ensures done == Split(s, token) && Join(done, token) == s
    ensures token != "" ==> forall piece | piece in done :: Free(piece, token)
  {
    assert done + [] == done;
    if token != "" {
      JoinSplit(s, token);
      PiecesAreFree(s, token);
    }
  }

  /** One turn of the loop, with the pieces done so far in front. */
  lemma {:induction false} CutOnce(done: seq<string>, rest: string, token: string)
    requires rest != "" && token != ""
    ensures
      Resumed(done, rest, token) ==
        match Find(rest, token)
        case None => Resumed(done + [rest], "", token)
        case Some(i) =>
          var rest' := rest[i + |token|..];
          if rest' == "" then Resumed(done + [rest[..i]] + [""], rest', token)
          else Resumed(done + [rest[..i]], rest', token)
  {
    var index := Find(rest, token);
    if index.Some? {
      var i := index.value;
      var rest' := rest[i + |token|..];
      var tail := if rest' == "" then [""] else Split(rest', token);
      assert done + ([rest[..i]] + tail) == done + [rest[..i]] + tail;
    }
  }

  method JoinStrings(pieces: seq<string>, token: string) returns (result: string)
    ensures result == Join(pieces, token)
    ensures token != "" && pieces != [""] && Cuttable(pieces, token) ==> Split(result, token) == pieces
  {
    if |pieces| == 0 {
      result := "";
    } else {
      result := pieces[0];
      var i := 0;
      while i < |pieces| - 1
        invariant 0 <= i < |pieces|
        invariant result == Join(pieces[..i + 1], token)
      {
        JoinSnoc(pieces[..i + 1], pieces[i + 1], token);
        assert pieces[..i + 2] == pieces[..i + 1] + [pieces[i + 1]];
        result := result + token;
        result := result + pieces[i + 1];
        i := i + 1;
      }
      assert pieces[..i + 1] == pieces;
    }
    if token != "" {
      SplitJoinExact(pieces, token);
    }
  }

  // ---- Joining ----

  lemma {:induction false} JoinSnoc(pieces: seq<string>, last: string, token: string)
    requires pieces != []
    ensures Join(pieces + [last], token) == Join(pieces, token) + token + last
  {
    if |pieces| > 1 {
      JoinSnoc(pieces[1..], last, token);
      assert (pieces + [last])[1..] == pieces[1..] + [last];
      assert Join(pieces + [last], token)
          == pieces[0] + token + (Join(pieces[1..], token) + token + last);
    } else {
      assert (pieces + [last])[1..] == [last];
    }
  }

  /** One more piece, anywhere, costs one token and its own length. */
  lemma {:induction false} JoinInsertLength(pieces: seq<string>, p: nat, piece: string, token: string)
    requires p <= |pieces| && pieces != []
    ensures |Join(pieces[..p] + [piece] + pieces[p..], token)| == |Join(pieces, token)| + |token| + |piece|
  {
    var longer := pieces[..p] + [piece] + pieces[p..];
    if p == 0 {
      assert longer[1..] == pieces;
    } else if |pieces| == 1 {
      assert longer == [pieces[0], piece];
      assert longer[1..] == [piece];
    } else {
      JoinInsertLength(pieces[1..], p - 1, piece, token);
      assert longer[1..] == pieces[1..][..p - 1] + [piece] + pieces[1..][p - 1..];
    }
  }

  // ---- Cutting and joining are inverse ----

  lemma {:induction false} JoinSplit(s: string, token: string)
    requires token != ""
    ensures Join(Split(s, token), token) == s
    decreases |s|
  {
    var index := Find(s, token);
    if s == "" || index.None? {
    } else {
      var i := index.value;
      var rest := s[i + |token|..];
      assert s == s[..i] + token + rest;
      if rest == "" {
        assert Split(s, token) == [s[..i], ""];
        assert Split(s, token)[1..] == [""];
      } else {
        JoinSplit(rest, token);
        assert Split(s, token)[1..] == Split(rest, token);
      }
    }
  }

  /** A position before the end of a prefix sees only the prefix. */
  lemma {:induction false} OccursInPrefix(s: string, more: string, token: string, k: nat)
    requires k + |token| <= |s|
    ensures OccursAt(s + more, token, k) <==> OccursAt(s, token, k)
  {
    assert (s + more)[k..k + |token|] == s[k..k + |token|];
  }

  lemma {:induction false} FindBeforeMore(piece: string, more: string, token: string)
    requires token != ""
    ensures Find(piece + token, token) == Some(|piece|) <==> Find(piece + token + more, token) == Some(|piece|)
  {
    FindFirst(piece + token, token, |piece|);
    FindFirst(piece + token + more, token, |piece|);
    forall k: nat | k <= |piece|
      ensures OccursAt(piece + token + more, token, k) <==> OccursAt(piece + token, token, k)
    {
      OccursInPrefix(piece + token, more, token, k);
    }
    assert OccursAt(piece + token, token, |piece|);
  }

  /** The first piece of a cut, followed by the token, has its first occurrence at the end. */
  lemma {:induction false} FirstPiece(s: string, token: string)
    requires token != "" && Find(s, token).Some?
    ensures var i := Find(s, token).value; Find(s[..i] + token, token) == Some(|s[..i]|)
  {
    var i := Find(s, token).value;
    var rest := s[i + |token|..];
    assert s == s[..i] + token + rest;
    FindBeforeMore(s[..i], rest, token);
  }

  lemma {:induction false} WholeIsCuttable(s: string, token: string)
    requires Find(s, token).None?
    ensures Cuttable([s], token)
  {
    FindFirst(s, token, 0);
  }

  lemma {:induction false} EmptyIsCuttable(token: string)
    requires token != ""
    ensures Cuttable([""], token)
  {
  }

  /** What a cut leaves after its first piece. */
  function AfterFirst(s: string, token: string): seq<string>
    requires token != "" && Find(s, token).Some?
  {
    var rest := s[Find(s, token).value + |token|..];
    if rest == "" then [""] else Split(rest, token)
  }

  lemma {:induction false} CutFirst(s: string, token: string)
    requires token != "" && Find(s, token).Some?
    ensures Split(s, token) == [s[..Find(s, token).value]] + AfterFirst(s, token)
    ensures AfterFirst(s, token) != []
  {
  }

  lemma {:induction false} SplitIsCuttable(s: string, token: string)
    requires token != ""
    ensures Cuttable(Split(s, token), token)
    decreases |s|
  {
    var index := Find(s, token);
    if index.None? {
      WholeIsCuttable(s, token);
    } else {
      CutFirst(s, token);
      FirstPiece(s, token);
      var rest := s[index.value + |token|..];
      if rest == "" {
        EmptyIsCuttable(token);
      } else {
        SplitIsCuttable(rest, token);
      }
      CuttableCons(s[..index.value], AfterFirst(s, token), token);
    }
  }

  lemma {:induction false} CuttableCons(piece: string, tail: seq<string>, token: string)
    requires tail != [] && Find(piece + token, token) == Some(|piece|)
    ensures Cuttable([piece] + tail, token) <==> Cuttable(tail, token)
  {
    var all := [piece] + tail;
    assert Fits(all, 0, token);
    assert forall j | 0 <= j < |tail| :: Fits(tail, j, token) <==> Fits(all, j + 1, token);
    assert forall j | 0 < j < |all| :: Fits(all, j, token) <==> Fits(tail, j - 1, token);
  }

  lemma {:induction false} CuttableIsSplit(pieces: seq<string>, token: string)
    requires token != "" && pieces != [""] && Cuttable(pieces, token)
    ensures Split(Join(pieces, token), token) == pieces
  {
    if |pieces| > 1 {
      var rest := Join(pieces[1..], token);
      var s := Join(pieces, token);
      FindBeforeMore(pieces[0], rest, token);
      assert s == pieces[0] + token + rest;
      assert s[..|pieces[0]|] == pieces[0] && s[|pieces[0]| + |token|..] == rest;
      assert Fits(pieces, 0, token);
      assert [pieces[0]] + pieces[1..] == pieces;
      CuttableCons(pieces[0], pieces[1..], token);
      FindBeforeMore(pieces[0], rest, token);
      if rest != "" {
        CuttableIsSplit(pieces[1..], token);
      } else {
        assert pieces[1..] == [""];
      }
    } else if |pieces| == 1 {
      assert Fits(pieces, 0, token);
      FindFirst(pieces[0], token, 0);
    }
  }

  /** Cutting undoes joining exactly on the lists that cutting can produce. */
  lemma {:induction false} SplitJoinExact(pieces: seq<string>, token: string)
    requires token != ""
    ensures Split(Join(pieces, token), token) == pieces <==> pieces != [""] && Cuttable(pieces, token)
  {
    SplitIsCuttable(Join(pieces, token), token);
    if pieces != [""] && Cuttable(pieces, token) {
      CuttableIsSplit(pieces, token);
    }
  }

  /** No piece of a cut holds the token. */
  lemma {:induction false} PiecesAreFree(s: string, token: string)
    requires token != ""
    ensures forall piece | piece in Split(s, token) :: Free(piece, token)
  {
    SplitIsCuttable(s, token);
    var pieces := Split(s, token);
    forall i, k: nat | 0 <= i < |pieces|
      ensures !OccursAt(pieces[i], token, k)
    {
      assert Fits(pieces, i, token);
      if i < |pieces| - 1 && k + |token| <= |pieces[i]| {
        OccursInPrefix(pieces[i], token, token, k);
        FindFirst(pieces[i] + token, token, |pieces[i]|);
      }
    }
  }
}
