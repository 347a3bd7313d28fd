/** String operations the catalog relies on: substring search (FString::Contains),
    the lexical order used for names and tags, and splitting/joining of object paths. */
module StringOps {

  /** `sub` occurs somewhere inside `s` (an exact, case-sensitive match). */
  predicate Contains(s: string, sub: string) {
    exists i :: 0 <= i <= |s| - |sub| && OccursAt(s, sub, i)
  }

  /** `sub` occurs in `s` starting at position `i`. */
  predicate OccursAt(s: string, sub: string, i: int) {
    0 <= i <= |s| - |sub| && s[i..i + |sub|] == sub
  }

  /** Containment is transitive: a text containing `t` contains everything `t` contains. */
  lemma ContainsTransitive(s: string, t: string, u: string)
    requires Contains(s, t) && Contains(t, u)
    ensures Contains(s, u)
  {
    var i :| 0 <= i <= |s| - |t| && OccursAt(s, t, i);
    var j :| 0 <= j <= |t| - |u| && OccursAt(t, u, j);
    assert forall k :: 0 <= k < |u| ==> s[i + j + k] == t[j + k] == u[k];
    assert s[i + j..i + j + |u|] == u;
    assert OccursAt(s, u, i + j);
  }

  /** Lexicographic "strictly less" on character sequences. */
  predicate LexicalLess(a: string, b: string)
    decreases |a|
  {
    if |a| == 0 then |b| > 0
    else if |b| == 0 then false
    else if a[0] != b[0] then a[0] < b[0]
    else LexicalLess(a[1..], b[1..])
  }

  lemma {:induction false} LexicalLessIrreflexive(a: string)
    ensures !LexicalLess(a, a)
    decreases |a|
  {
    if |a| > 0 {
      LexicalLessIrreflexive(a[1..]);
    }
  }

  lemma {:induction false} LexicalLessTransitive(a: string, b: string, c: string)
    requires LexicalLess(a, b) && LexicalLess(b, c)
    ensures LexicalLess(a, c)
    decreases |a|
  {
    if |a| > 0 && |b| > 0 && |c| > 0 && a[0] == b[0] == c[0] {
      LexicalLessTransitive(a[1..], b[1..], c[1..]);
    }
  }

  /** Any two different strings are ordered one way or the other. */
  lemma {:induction false} LexicalLessTotal(a: string, b: string)
    ensures a == b || LexicalLess(a, b) || LexicalLess(b, a)
    decreases |a|
  {
    if |a| > 0 && |b| > 0 && a[0] == b[0] {
      LexicalLessTotal(a[1..], b[1..]);
      if a[1..] == b[1..] {
        assert a == [a[0]] + a[1..] && b == [b[0]] + b[1..];
      }
    }
  }

  lemma LexicalLessAsymmetric(a: string, b: string)
    requires LexicalLess(a, b)
    ensures !LexicalLess(b, a)
  {
    if LexicalLess(b, a) {
      LexicalLessTransitive(a, b, a);
      LexicalLessIrreflexive(a);
    }
  }

  /** Every element of `s` comes strictly before every later one. */
  predicate StrictlyAscending(s: seq<string>) {
    forall i, j :: 0 <= i < j < |s| ==> LexicalLess(s[i], s[j])
  }

  /** Inserts `t` into an ascending sequence at its place (the key sort of a string map). */
  function InsertSorted(s: seq<string>, t: string): (r: seq<string>)
    requires StrictlyAscending(s) && t !in s
    ensures StrictlyAscending(r)
    ensures |r| == |s| + 1
    ensures forall x :: x in r <==> x in s || x == t
    decreases |s|
  {
    if s == [] then [t]
    else if LexicalLess(t, s[0]) then
      assert forall j :: 0 < j < |s| ==> LexicalLess(t, s[j]) by {
        forall j | 0 < j < |s| ensures LexicalLess(t, s[j]) {
          LexicalLessTransitive(t, s[0], s[j]);
        }
      }
      [t] + s
    else
      LexicalLessTotal(t, s[0]);
      var rest := InsertSorted(s[1..], t);
      assert forall x :: x in s <==> x == s[0] || x in s[1..];
      assert forall k :: 0 <= k < |rest| ==> LexicalLess(s[0], rest[k]) by {
        forall k | 0 <= k < |rest| ensures LexicalLess(s[0], rest[k]) {
          assert rest[k] in rest;
        }
      }
      [s[0]] + rest
  }

  /** FString::ParseIntoArray with empty pieces culled: the non-empty runs of `s`
      between occurrences of `delim`, in order. */
  function ParseIntoArray(s: string, delim: char): (r: seq<string>)
    ensures forall k :: 0 <= k < |r| ==> r[k] != [] && delim !in r[k]
  {
    ParsePieces(s, delim, [])
  }

  /** `cur` is the piece read so far, still waiting for its delimiter. */
  function ParsePieces(s: string, delim: char, cur: string): (r: seq<string>)
    requires delim !in cur
    ensures forall k :: 0 <= k < |r| ==> r[k] != [] && delim !in r[k]
    decreases |s|
  {
    if |s| == 0 then
      (if cur == [] then [] else [cur])
    else if s[0] == delim then
      (if cur == [] then [] else [cur]) + ParsePieces(s[1..], delim, [])
    else
      ParsePieces(s[1..], delim, cur + [s[0]])
  }

  /** UKismetStringLibrary::JoinStringArray: the pieces with `sep` between neighbours. */
  function JoinStringArray(pieces: seq<string>, sep: string): string
    decreases |pieces|
  {
    if |pieces| == 0 then []
    else if |pieces| == 1 then pieces[0]
    else pieces[0] + sep + JoinStringArray(pieces[1..], sep)
  }

  lemma {:induction false} ParsePiecesAppend(x: string, rest: string, delim: char, cur: string)
    requires delim !in cur && delim !in x
    ensures ParsePieces(x + rest, delim, cur) == ParsePieces(rest, delim, cur + x)
    decreases |x|
  {
    if |x| > 0 {
      assert (x + rest)[0] == x[0] && (x + rest)[1..] == x[1..] + rest;
      ParsePiecesAppend(x[1..], rest, delim, cur + [x[0]]);
      assert cur + [x[0]] + x[1..] == cur + x;
    } else {
      assert x + rest == rest && cur + x == cur;
    }
  }

  /** Splitting a joined path gives back its segments, when no segment is empty or
      holds the separator. */
  lemma {:induction false} ParseJoinRoundTrip(pieces: seq<string>, delim: char)
    requires forall k :: 0 <= k < |pieces| ==> pieces[k] != [] && delim !in pieces[k]
    ensures ParseIntoArray(JoinStringArray(pieces, [delim]), delim) == pieces
    decreases |pieces|
  {
    if |pieces| == 0 {
    } else if |pieces| == 1 {
      ParsePiecesAppend(pieces[0], [], delim, []);
      assert pieces[0] + [] == pieces[0] && [] + pieces[0] == pieces[0];
    } else {
      var tail := JoinStringArray(pieces[1..], [delim]);
      assert JoinStringArray(pieces, [delim]) == pieces[0] + ([delim] + tail);
      ParsePiecesAppend(pieces[0], [delim] + tail, delim, []);
      assert [] + pieces[0] == pieces[0];
      assert ([delim] + tail)[0] == delim && ([delim] + tail)[1..] == tail;
      ParseJoinRoundTrip(pieces[1..], delim);
      assert pieces == [pieces[0]] + pieces[1..];
    }
  }
}
