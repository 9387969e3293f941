/** `Settings.get_openai_keys`: the comma-separated key setting split on
    `,`, each piece stripped, blank pieces dropped. */
module Config {
  import opened Text

  /** A stripped, non-empty key. */
  predicate WellFormedKey(k: string) {
    k != [] && !IsWhitespace(k[0]) && !IsWhitespace(k[|k| - 1])
  }

  /** What one piece contributes: its strip, unless that is empty. */
  function KeyOf(piece: string): (r: seq<string>)
    ensures |r| <= 1
    ensures r != [] ==> WellFormedKey(r[0])
  {
    if Strip(piece) != [] then [Strip(piece)] else []
  }

  /** The concatenation of what `f` gives for each piece, in order. */
  function FlatMap(f: string -> seq<string>, pieces: seq<string>): seq<string> {
    if pieces == [] then [] else f(pieces[0]) + FlatMap(f, pieces[1..])
  }

  lemma {:induction false} FlatMapAppend(f: string -> seq<string>, a: seq<string>, b: seq<string>)
    ensures FlatMap(f, a + b) == FlatMap(f, a) + FlatMap(f, b)
  {
    if a == [] {
      assert a + b == b;
    } else {
      assert (a + b)[0] == a[0];
      assert (a + b)[1..] == a[1..] + b;
      FlatMapAppend(f, a[1..], b);
    }
  }

  /** `[p.strip() for p in pieces if p.strip()]`. */
  function StripNonBlank(pieces: seq<string>): (keys: seq<string>)
    ensures |keys| <= |pieces|
  {
    if pieces == [] then [] else KeyOf(pieces[0]) + StripNonBlank(pieces[1..])
  }

  lemma {:induction false} StripNonBlankIsFlatMap(pieces: seq<string>)
    ensures StripNonBlank(pieces) == FlatMap(KeyOf, pieces)
  {
    if pieces != [] {
      StripNonBlankIsFlatMap(pieces[1..]);
    }
  }

  /** Every key the comprehension keeps is stripped and non-empty. */
  lemma {:induction false} KeysWellFormed(pieces: seq<string>)
    ensures forall k :: k in StripNonBlank(pieces) ==> WellFormedKey(k)
  {
    if pieces != [] {
      KeysWellFormed(pieces[1..]);
      assert StripNonBlank(pieces) == KeyOf(pieces[0]) + StripNonBlank(pieces[1..]);
    }
  }

  function GetOpenaiKeys(raw: string): (keys: seq<string>)
    ensures |keys| <= multiset(raw)[','] + 1
    ensures forall k :: k in keys ==> WellFormedKey(k)
  {
    SplitCount(raw, ',');
    KeysWellFormed(SplitOn(raw, ','));
    StripNonBlank(SplitOn(raw, ','))
  }

  /** The comprehension distributes over concatenation of piece lists. */
  lemma StripNonBlankAppend(a: seq<string>, b: seq<string>)
    ensures StripNonBlank(a + b) == StripNonBlank(a) + StripNonBlank(b)
  {
    StripNonBlankIsFlatMap(a + b);
    StripNonBlankIsFlatMap(a);
    StripNonBlankIsFlatMap(b);
    FlatMapAppend(KeyOf, a, b);
  }

  /** Keys keep their input order: the keys of `a,b` are those of `a`
      followed by those of `b`. */
  lemma KeysInOrder(a: string, b: string)
    ensures GetOpenaiKeys(a + "," + b) == GetOpenaiKeys(a) + GetOpenaiKeys(b)
  {
    SplitAppend(a, ',', b);
    StripNonBlankAppend(SplitOn(a, ','), SplitOn(b, ','));
  }

  /** A setting without commas is one key (its strip), or none when blank. */
  lemma SingleKey(raw: string)
    requires ',' !in raw
    ensures GetOpenaiKeys(raw) == if IsBlank(raw) then [] else [Strip(raw)]
  {
    assert multiset(raw)[','] == 0;
    SplitCount(raw, ',');
    var pieces := SplitOn(raw, ',');
    JoinSplit(raw, ',');
    assert pieces == [raw];
  }

  /** The characters of `Strip(s)` are characters of `s`. */
  lemma StripChars(s: string)
    ensures forall c :: c in Strip(s) ==> c in s
  {
    var r := Strip(s);
    var i, j :| 0 <= i <= j <= |s| && r == s[i..j] && Text.IsBlank(s[..i]) && Text.IsBlank(s[j..]);
    forall c | c in r
      ensures c in s
    {
      SliceChars(s, r, i, j, c);
    }
  }

  lemma SliceChars(s: string, r: string, i: nat, j: nat, c: char)
    requires i <= j <= |s| && r == s[i..j] && c in r
    ensures c in s
  {
    var k :| 0 <= k < |r| && r[k] == c;
    assert s[i + k] == c;
  }

  /** No key contains a comma. */
  lemma {:induction false} NoCommaInKeys(pieces: seq<string>)
    requires forall p :: p in pieces ==> ',' !in p
    ensures forall k :: k in StripNonBlank(pieces) ==> ',' !in k
  {
    if pieces != [] {
      NoCommaInKeys(pieces[1..]);
      assert StripNonBlank(pieces) == KeyOf(pieces[0]) + StripNonBlank(pieces[1..]);
      if ',' in Strip(pieces[0]) {
        StripChars(pieces[0]);
      }
    }
  }

  lemma KeysHaveNoComma(raw: string)
    ensures forall k :: k in GetOpenaiKeys(raw) ==> ',' !in k
  {
    NoCommaInKeys(SplitOn(raw, ','));
  }

  /** Pieces of a string made only of separators and whitespace are blank. */
  lemma {:induction false} SplitOfBlank(s: string, sep: char)
    requires forall i :: 0 <= i < |s| ==> s[i] == sep || IsWhitespace(s[i])
    ensures forall i :: 0 <= i < |SplitOn(s, sep)| ==> IsBlank(SplitOn(s, sep)[i])
  {
    if s != [] {
      SplitOfBlank(s[1..], sep);
      var rest := SplitOn(s[1..], sep);
      if s[0] != sep {
        var head := [s[0]] + rest[0];
        assert IsBlank(head) by {
          forall i | 0 <= i < |head| ensures IsWhitespace(head[i]) {
            if i > 0 { assert head[i] == rest[0][i - 1]; }
          }
        }
        var r := [head] + rest[1..];
        assert forall i :: 1 <= i < |r| ==> r[i] == rest[i];
      }
    }
  }

  lemma {:induction false} BlankPiecesDropped(pieces: seq<string>)
    requires forall i :: 0 <= i < |pieces| ==> IsBlank(pieces[i])
    ensures StripNonBlank(pieces) == []
  {
    if pieces != [] {
      BlankPiecesDropped(pieces[1..]);
    }
  }

  /** An all-blank or all-comma setting gives no keys. */
  lemma BlankSettingHasNoKeys(raw: string)
    requires forall i :: 0 <= i < |raw| ==> raw[i] == ',' || IsWhitespace(raw[i])
    ensures GetOpenaiKeys(raw) == []
  {
    SplitOfBlank(raw, ',');
    BlankPiecesDropped(SplitOn(raw, ','));
  }

  /** A leading comma only adds an empty piece, which is dropped. */
  lemma LeadingCommaDropped(b: string)
    ensures GetOpenaiKeys("," + b) == GetOpenaiKeys(b)
  {
    assert "" + "," + b == "," + b;
    KeysInOrder("", b);
    BlankSettingHasNoKeys("");
  }

  /** An empty piece between two commas adds no key. */
  lemma EmptyPieceDropped(a: string, b: string)
    ensures GetOpenaiKeys(a + ",," + b) == GetOpenaiKeys(a) + GetOpenaiKeys(b)
  {
    DoubleComma(a, b);
    KeysInOrder(a, "," + b);
    LeadingCommaDropped(b);
  }

  lemma DoubleComma(a: string, b: string)
    ensures a + ",," + b == a + "," + ("," + b)
  {
    assert ",," == "," + ",";
  }
}
