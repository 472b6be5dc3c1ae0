/** Trimming text, and taking paths apart at their slashes. */
module Text {

  /** The ASCII characters that Python's `strip` removes: tab to carriage return, the four separators, and the space. */
  predicate IsSpace(ch: char) { '\t' <= ch <= '\r' || '\U{001c}' <= ch <= '\U{001f}' || ch == ' ' }

  function Trim(s: string): (r: string)
    ensures r != "" ==> !IsSpace(r[0]) && !IsSpace(r[|r| - 1])
    ensures |r| <= |s| && forall ch :: ch in r ==> ch in s
  {
    if s == "" then s
    else if IsSpace(s[0]) then Trim(s[1..])
    else if IsSpace(s[|s| - 1]) then Trim(s[..|s| - 1])
    else s
  }

  lemma IsSpaceIff(ch: char)
    ensures IsSpace(ch) <==>
              || ch == '\U{0009}' || ch == '\U{000a}' || ch == '\U{000b}' || ch == '\U{000c}' || ch == '\U{000d}'
              || ch == '\U{001c}' || ch == '\U{001d}' || ch == '\U{001e}' || ch == '\U{001f}' || ch == '\U{0020}'
  {
  }

  /** Trimming cuts off the spaces at both ends and nothing else. */
  lemma {:induction false} TrimIs(s: string) returns (i: nat, j: nat)
    ensures i <= j <= |s| && Trim(s) == s[i..j]
    ensures forall k :: 0 <= k < i || j <= k < |s| ==> IsSpace(s[k])
  {
    i, j := 0, |s|;
    if s != "" && IsSpace(s[0]) {
      var k, l := TrimIs(s[1..]);
      i, j := k + 1, l + 1;
      hide IsSpace;
      assert s[1..][k..l] == s[i..j];
      assert forall m :: 0 < m < |s| ==> s[m] == s[1..][m - 1];
    } else if s != "" && IsSpace(s[|s| - 1]) {
      var front := s[..|s| - 1];
      i, j := TrimIs(front);
      hide IsSpace;
      assert front[i..j] == s[i..j];
      assert forall m :: 0 <= m < |front| ==> s[m] == front[m];
    }
  }

  function UpperChar(ch: char): char { if 'a' <= ch <= 'z' then ch - 'a' + 'A' else ch }

  function Upper(s: string): (r: string)
    ensures |r| == |s| && forall i :: 0 <= i < |s| ==> r[i] == UpperChar(s[i])
  {
    seq(|s|, i requires 0 <= i < |s| => UpperChar(s[i]))
  }

  /** The small letters become the capitals in the same place of the alphabet, and nothing else changes. */
  lemma UpperIs(s: string, i: nat)
    requires i < |s|
    ensures 'a' <= s[i] <= 'z' ==> 'A' <= Upper(s)[i] <= 'Z' && Upper(s)[i] - 'A' == s[i] - 'a'
    ensures !('a' <= s[i] <= 'z') ==> Upper(s)[i] == s[i]
  {
  }

  lemma UpperOfTrimmed(s: string)
    ensures Upper(Trim(Upper(s))) == Trim(Upper(s))
  {
    hide Trim;
    var u := Upper(s);
    var t := Trim(u);
    forall i | 0 <= i < |t|
      ensures UpperChar(t[i]) == t[i]
    {
      assert t[i] in t && t[i] in u;
      var j :| 0 <= j < |u| && u[j] == t[i];
    }
  }

  lemma TrimUpperTwice(s: string)
    ensures Trim(Upper(Trim(Upper(s)))) == Trim(Upper(s))
  {
    UpperOfTrimmed(s);
    TrimTwice(Upper(s));
  }

  lemma TrimTwice(s: string)
    ensures Trim(Trim(s)) == Trim(s)
  {
  }

  /** Backslashes turned into slashes. */
  function Slashed(s: string): (r: string)
    ensures |r| == |s| && forall i :: 0 <= i < |s| ==> r[i] == (if s[i] == '\\' then '/' else s[i])
  {
    seq(|s|, i requires 0 <= i < |s| => if s[i] == '\\' then '/' else s[i])
  }

  /** The pieces between slashes. */
  function Split(s: string): (r: seq<string>)
    ensures r != []
  {
    if s == "" then [""]
    else if s[0] == '/' then [""] + Split(s[1..])
    else var rest := Split(s[1..]); [[s[0]] + rest[0]] + rest[1..]
  }

  function Join(pieces: seq<string>): string
    requires pieces != []
  {
    if |pieces| == 1 then pieces[0] else pieces[0] + ['/'] + Join(pieces[1..])
  }

  lemma SplitStep(ch: char, s: string)
    ensures ch == '/' ==> Split([ch] + s) == [""] + Split(s)
    ensures ch != '/' ==> Split([ch] + s) == [[ch] + Split(s)[0]] + Split(s)[1..]
  {
    assert ([ch] + s)[1..] == s;
  }

  lemma SplitOfEmpty()
    ensures Split("") == [""]
  {
  }

  lemma {:induction false} SplitAtSlash(a: string, b: string)
    ensures Split(a + ['/'] + b) == Split(a) + Split(b)
  {
    hide Split;
    if a == "" {
      SplitOfEmpty();
      SplitStep('/', b);
      assert a + ['/'] + b == ['/'] + b;
    } else {
      var rest := a[1..] + ['/'] + b;
      assert a + ['/'] + b == [a[0]] + rest && a == [a[0]] + a[1..];
      SplitAtSlash(a[1..], b);
      SplitStep(a[0], rest);
      SplitStep(a[0], a[1..]);
      var pieces := Split(a[1..]);
      assert (pieces + Split(b))[0] == pieces[0] && (pieces + Split(b))[1..] == pieces[1..] + Split(b);
    }
  }

  lemma {:induction false} SplitOfPiece(s: string)
    requires '/' !in s
    ensures Split(s) == [s]
  {
    if s != "" {
      SplitOfPiece(s[1..]);
      assert s == [s[0]] + s[1..];
      SplitStep(s[0], s[1..]);
    }
  }

  /** Text that trimming and slashing leave alone. */
  lemma TrimmedAlready(s: string)
    requires s != "" && !IsSpace(s[0]) && !IsSpace(s[|s| - 1]) && '\\' !in s
    ensures Trim(s) == s && Slashed(Trim(s)) == s
  {
  }

  /** One more piece of a path: `.` and nothing stay, `..` goes up. */
  function Follow(front: seq<string>, piece: string): seq<string> {
    if piece == "" || piece == "." then front
    else if piece != ".." || front == [] || front[|front| - 1] == ".." then front + [piece]
    else front[..|front| - 1]
  }

  /** Where a path leads, piece by piece. */
  function LeadsTo(pieces: seq<string>): seq<string> {
    if pieces == [] then [] else Follow(LeadsTo(pieces[..|pieces| - 1]), pieces[|pieces| - 1])
  }

  lemma LeadsOneFurther(pieces: seq<string>, piece: string)
    ensures LeadsTo(pieces + [piece]) == Follow(LeadsTo(pieces), piece)
  {
    assert (pieces + [piece])[..|pieces|] == pieces;
  }

  predicate PlainPiece(piece: string) { piece != "" && piece != "." && piece != ".." }

  lemma FollowAddsAtMost(front: seq<string>, piece: string)
    ensures forall p :: p in Follow(front, piece) ==> p in front || (p == piece && piece != "")
  {
  }

  /** What a path leads to is made of its own pieces, and of none that is empty. */
  lemma {:induction false} LeadsToOwnPieces(pieces: seq<string>)
    ensures forall p :: p in LeadsTo(pieces) ==> p in pieces && p != ""
  {
    if pieces != [] {
      var front, last := pieces[..|pieces| - 1], pieces[|pieces| - 1];
      LeadsToOwnPieces(front);
      FollowAddsAtMost(LeadsTo(front), last);
      assert pieces == front + [last];
    }
  }

  lemma {:induction false} PiecesHoldNoSlash(s: string)
    ensures forall p :: p in Split(s) ==> '/' !in p
  {
    if s != "" {
      PiecesHoldNoSlash(s[1..]);
      assert s[0] != '/' ==> Split(s[1..])[0] in Split(s[1..]);
    }
  }

  lemma {:induction false} SplitOfJoin(pieces: seq<string>)
    requires pieces != [] && forall p :: p in pieces ==> '/' !in p
    ensures Split(Join(pieces)) == pieces
  {
    hide Split;
    assert pieces[0] in pieces && pieces == [pieces[0]] + pieces[1..];
    SplitOfPiece(pieces[0]);
    if |pieces| > 1 {
      SplitOfJoin(pieces[1..]);
      SplitAtSlash(pieces[0], Join(pieces[1..]));
    }
  }

  lemma {:induction false} JoinEndsAsItsPieces(pieces: seq<string>)
    requires pieces != [] && forall p :: p in pieces ==> p != "" && '/' !in p
    ensures Join(pieces) != "" && Join(pieces)[|Join(pieces)| - 1] != '/'
  {
    if |pieces| > 1 {
      assert forall p :: p in pieces[1..] ==> p in pieces;
      JoinEndsAsItsPieces(pieces[1..]);
    } else {
      assert pieces[0] in pieces;
    }
  }

  lemma {:induction false} JoinOfSplit(s: string)
    ensures Join(Split(s)) == s
  {
    hide Split;
    if s == "" {
      SplitOfEmpty();
    } else {
      JoinOfSplit(s[1..]);
      assert s == [s[0]] + s[1..];
      SplitStep(s[0], s[1..]);
      var rest := Split(s[1..]);
      if s[0] == '/' {
        assert Split(s)[1..] == rest;
        assert Join(Split(s)) == [] + ['/'] + Join(rest);
      } else {
        assert Split(s)[1..] == rest[1..];
        if |rest| > 1 {
          assert s == [s[0]] + (rest[0] + ['/'] + Join(rest[1..]));
        }
      }
    }
  }

  lemma {:induction false} JoinOfConcat(a: seq<string>, b: seq<string>)
    requires a != [] && b != []
    ensures Join(a + b) == Join(a) + ['/'] + Join(b)
  {
    assert (a + b)[1..] == a[1..] + b;
    if |a| > 1 {
      JoinOfConcat(a[1..], b);
      assert Join(a + b) == a[0] + ['/'] + (Join(a[1..]) + ['/'] + Join(b));
    }
  }

  /** A string extends `r` and a slash exactly when its pieces extend those of `r`. */
  lemma ExtendsIffPiecesExtend(r: string, p: string)
    ensures r + ['/'] <= p <==> Split(r) < Split(p)
  {
    if r + ['/'] <= p {
      var tail := p[|r| + 1..];
      assert p == r + ['/'] + tail;
      SplitAtSlash(r, tail);
    }
    if Split(r) < Split(p) {
      var tail := Split(p)[|Split(r)|..];
      assert Split(p) == Split(r) + tail;
      JoinOfConcat(Split(r), tail);
      JoinOfSplit(r);
      JoinOfSplit(p);
    }
  }

  lemma SplitIsInjective(r: string, p: string)
    requires Split(r) == Split(p)
    ensures r == p
  {
    JoinOfSplit(r);
    JoinOfSplit(p);
  }

  /** The pieces of a path start with those of `r` exactly when it is `r` or extends `r` and a slash. */
  lemma StartsIffPiecesStart(r: string, p: string)
    ensures Split(r) <= Split(p) <==> p == r || r + ['/'] <= p
  {
    hide Split;
    ExtendsIffPiecesExtend(r, p);
    if Split(r) == Split(p) { SplitIsInjective(r, p); }
  }
}
