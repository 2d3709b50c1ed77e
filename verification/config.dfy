/**
 * The backend settings read from the environment that the model keeps: the list of
 * origins allowed by CORS (_parse_origins) and the frame stride of the person counter.
 */
module Config {
  import opened Wrappers
  import opened Text

  /** The origins kept from the pieces of the setting: each stripped, blank ones dropped, in order. */
  function StrippedOrigins(pieces: seq<string>): (origins: seq<string>)
    ensures |origins| <= |pieces|
    ensures forall i :: 0 <= i < |origins| ==>
      origins[i] != [] && !IsSpace(origins[i][0]) && !IsSpace(origins[i][|origins[i]| - 1])
  {
    if pieces == [] then []
    else
      var origin := Strip(pieces[0]);
      var rest := StrippedOrigins(pieces[1..]);
      if origin != [] then
        CleanPrepend(origin, rest);
        [origin] + rest
      else rest
  }

  /** A clean origin in front of clean origins leaves every origin clean. */
  lemma CleanPrepend(origin: string, rest: seq<string>)
    requires origin != [] && !IsSpace(origin[0]) && !IsSpace(origin[|origin| - 1])
    requires forall i :: 0 <= i < |rest| ==> rest[i] != [] && !IsSpace(rest[i][0]) && !IsSpace(rest[i][|rest[i]| - 1])
    ensures forall i :: 0 <= i < |rest| + 1 ==>
      var o := ([origin] + rest)[i]; o != [] && !IsSpace(o[0]) && !IsSpace(o[|o| - 1])
  {
    forall i | 1 <= i < |rest| + 1
      ensures ([origin] + rest)[i] == rest[i - 1]
    {
    }
  }

  /** One piece gives its strip, or nothing when the strip is empty. */
  lemma StrippedOriginsOne(piece: string)
    ensures StrippedOrigins([piece]) == if Strip(piece) == [] then [] else [Strip(piece)]
  {
    assert [piece][1..] == [];
  }

  /** The first piece is judged on its own, before the rest. */
  lemma StrippedOriginsFront(pieces: seq<string>)
    requires pieces != []
    ensures StrippedOrigins(pieces) == StrippedOrigins([pieces[0]]) + StrippedOrigins(pieces[1..])
  {
    StrippedOriginsOne(pieces[0]);
  }

  /** The pieces are judged one at a time: the origins of a concatenation are the concatenated origins. */
  lemma {:induction false} StrippedOriginsAppend(p: seq<string>, q: seq<string>)
    ensures StrippedOrigins(p + q) == StrippedOrigins(p) + StrippedOrigins(q)
    decreases |p|
  {
    if p == [] {
      assert p + q == q;
    } else {
      var whole := p + q;
      assert whole[0] == p[0] && whole[1..] == p[1..] + q;
      var head, middle, tail := StrippedOrigins([p[0]]), StrippedOrigins(p[1..]), StrippedOrigins(q);
      calc {
        StrippedOrigins(whole);
        { StrippedOriginsFront(whole); }
        head + StrippedOrigins(p[1..] + q);
        { StrippedOriginsAppend(p[1..], q); }
        head + (middle + tail);
        { ConcatAssociative(head, middle, tail); }
        (head + middle) + tail;
        { StrippedOriginsFront(p); }
        StrippedOrigins(p) + tail;
      }
    }
  }

  /** Concatenation of origin lists is associative. */
  lemma ConcatAssociative(x: seq<string>, y: seq<string>, z: seq<string>)
    ensures x + (y + z) == (x + y) + z
  {
  }

  /** _parse_origins: the comma-separated origins, or the wildcard when none is left. */
  function ParseOrigins(raw: string): (origins: seq<string>)
    ensures |origins| >= 1
    ensures forall i :: 0 <= i < |origins| ==>
      origins[i] != [] && !IsSpace(origins[i][0]) && !IsSpace(origins[i][|origins[i]| - 1])
  {
    var origins := StrippedOrigins(Split(raw, ','));
    if origins != [] then origins else ["*"]
  }

  /** Origins come from the setting: each holds no comma and only characters of the setting. */
  lemma OriginsFromSetting(raw: string)
    requires StrippedOrigins(Split(raw, ',')) != []
    ensures forall i :: 0 <= i < |ParseOrigins(raw)| ==> CharsFrom(ParseOrigins(raw)[i], raw)
    ensures forall i :: 0 <= i < |ParseOrigins(raw)| ==> ',' !in ParseOrigins(raw)[i]
  {
    var pieces := Split(raw, ',');
    SplitPieces(raw, ',');
    SplitPieceChars(raw, ',');
    StrippedOriginsFromPieces(pieces, raw);
    assert ParseOrigins(raw) == StrippedOrigins(pieces);
  }

  /** Each kept origin is the strip of one of the pieces, so its characters are the setting's. */
  lemma {:induction false} StrippedOriginsFromPieces(pieces: seq<string>, raw: string)
    requires forall i :: 0 <= i < |pieces| ==> CharsFrom(pieces[i], raw) && ',' !in pieces[i]
    ensures forall i :: 0 <= i < |StrippedOrigins(pieces)| ==>
      CharsFrom(StrippedOrigins(pieces)[i], raw) && ',' !in StrippedOrigins(pieces)[i]
    decreases |pieces|
  {
    if pieces != [] {
      StrippedOriginsFromPieces(pieces[1..], raw);
      StripKeepsChars(pieces[0], raw);
      StrippedOriginsFront(pieces);
      StrippedOriginsOne(pieces[0]);
      FromSettingConcat(StrippedOrigins([pieces[0]]), StrippedOrigins(pieces[1..]), raw);
    }
  }

  /** Two lists of origins taken from the setting concatenate to one. */
  lemma FromSettingConcat(x: seq<string>, y: seq<string>, raw: string)
    requires forall i :: 0 <= i < |x| ==> CharsFrom(x[i], raw) && ',' !in x[i]
    requires forall i :: 0 <= i < |y| ==> CharsFrom(y[i], raw) && ',' !in y[i]
    ensures forall i :: 0 <= i < |x + y| ==> CharsFrom((x + y)[i], raw) && ',' !in (x + y)[i]
  {
    forall i | 0 <= i < |x + y|
      ensures CharsFrom((x + y)[i], raw) && ',' !in (x + y)[i]
    {
      if i < |x| {
        assert (x + y)[i] == x[i];
      } else {
        assert (x + y)[i] == y[i - |x|];
      }
    }
  }

  /** Stripping a piece keeps only characters it had. */
  lemma StripKeepsChars(piece: string, raw: string)
    requires CharsFrom(piece, raw) && ',' !in piece
    ensures CharsFrom(Strip(piece), raw) && ',' !in Strip(piece)
  {
    var trimmed := TrimStart(piece);
    var origin := TrimEnd(trimmed);
    assert Strip(piece) == origin;
    assert forall k :: 0 <= k < |origin| ==> origin[k] == piece[|piece| - |trimmed| + k];
  }

  /** Origins that are already clean, joined with commas, are read back as they are. */
  lemma {:induction false} ParseOriginsOfJoin(origins: seq<string>)
    requires |origins| >= 1
    requires forall i :: 0 <= i < |origins| ==>
      && origins[i] != [] && ',' !in origins[i]
      && !IsSpace(origins[i][0]) && !IsSpace(origins[i][|origins[i]| - 1])
    ensures ParseOrigins(Join(origins, ',')) == origins
  {
    SplitJoin(origins, ',');
    CleanOriginsKept(origins);
  }

  /** Stripping and filtering leave clean origins untouched. */
  lemma {:induction false} CleanOriginsKept(origins: seq<string>)
    requires forall i :: 0 <= i < |origins| ==>
      origins[i] != [] && !IsSpace(origins[i][0]) && !IsSpace(origins[i][|origins[i]| - 1])
    ensures StrippedOrigins(origins) == origins
    decreases |origins|
  {
    if origins != [] {
      StripOfStripped(origins[0]);
      CleanOriginsKept(origins[1..]);
      assert [origins[0]] + origins[1..] == origins;
    }
  }

  /** Two origins with spaces around them, as in "a, b", become the two stripped origins. */
  lemma TwoOrigins(a: string, b: string)
    requires ',' !in a && ',' !in b
    requires Strip(a) != [] && Strip(b) != []
    ensures ParseOrigins(a + "," + b) == [Strip(a), Strip(b)]
  {
    SplitTwo(a, b, ',');
    assert a + [','] + b == a + "," + b;
    StrippedOriginsAppend([a], [b]);
    PairOfSingletons(a, b);
    StrippedOriginsOne(a);
    StrippedOriginsOne(b);
    PairOfSingletons(Strip(a), Strip(b));
  }

  /** " a ,, b ," keeps "a" and "b": the pieces are stripped and the blank ones dropped. */
  lemma SpacedOriginsExample()
    ensures ParseOrigins(" a ,, b ,") == ["a", "b"]
  {
    SpacedPiecesJoin();
    SplitJoin([" a ", "", " b ", ""], ',');
    SpacedPiecesOrigins('a', 'b');
  }

  /** Spaced single-character pieces between blank ones leave just the characters. */
  lemma SpacedPiecesOrigins(a: char, b: char)
    requires !IsSpace(a) && !IsSpace(b)
    ensures StrippedOrigins([[' ', a, ' '], "", [' ', b, ' '], ""]) == [[a], [b]]
  {
    SpacedPieceThenBlank(a);
    SpacedPieceThenBlank(b);
    OriginsOfTwoPairs([' ', a, ' '], "", [' ', b, ' '], "", [a], [b]);
  }

  /** Two pairs of pieces that keep one origin each keep both, in order. */
  lemma OriginsOfTwoPairs(p: string, q: string, r: string, t: string, x: string, y: string)
    requires StrippedOrigins([p, q]) == [x] && StrippedOrigins([r, t]) == [y]
    ensures StrippedOrigins([p, q, r, t]) == [x, y]
  {
    StrippedOriginsAppend([p, q], [r, t]);
    PairsConcat(p, q, r, t);
    PairOfSingletons(x, y);
  }

  /** Two one-element lists concatenate to the pair. */
  lemma PairOfSingletons(x: string, y: string)
    ensures [x] + [y] == [x, y]
  {
  }

  /** Two two-element lists concatenate to the four elements in order. */
  lemma PairsConcat(p: string, q: string, r: string, t: string)
    ensures [p, q] + [r, t] == [p, q, r, t]
  {
  }

  /** A spaced piece followed by an empty one leaves one origin. */
  lemma SpacedPieceThenBlank(c: char)
    requires !IsSpace(c)
    ensures StrippedOrigins([[' ', c, ' '], ""]) == [[c]]
  {
    SpacedOriginKept(c);
    StrippedOriginsOne("");
    StrippedOriginsAppend([[' ', c, ' ']], [""]);
    PairOfSingletons([' ', c, ' '], "");
  }

  /** The four pieces of " a ,, b ," joined with commas give the setting back. */
  lemma SpacedPiecesJoin()
    ensures Join([" a ", "", " b ", ""], ',') == " a ,, b ,"
  {
    var pieces := [" a ", "", " b ", ""];
    assert Join(pieces[3..], ',') == "";
    assert Join(pieces[2..], ',') == " b ,";
    assert Join(pieces[1..], ',') == ", b ,";
  }

  /** One character with a space on each side is kept as that character. */
  lemma SpacedOriginKept(c: char)
    requires !IsSpace(c)
    ensures StrippedOrigins([[' ', c, ' ']]) == [[c]]
  {
    var piece := [' ', c, ' '];
    assert piece[1..] == [c, ' '];
    assert TrimStart(piece) == [c, ' '];
    assert [c, ' '][..1] == [c];
    assert TrimEnd([c, ' ']) == [c];
    StrippedOriginsOne(piece);
  }

  /** A setting of only commas and whitespace, such as "" or " , ,", allows every origin. */
  lemma BlankOriginsAllowAll(raw: string)
    requires forall k :: 0 <= k < |raw| ==> raw[k] == ',' || IsSpace(raw[k])
    ensures ParseOrigins(raw) == ["*"]
  {
    var pieces := Split(raw, ',');
    SplitPieces(raw, ',');
    SplitPieceChars(raw, ',');
    forall i | 0 <= i < |pieces|
      ensures Strip(pieces[i]) == []
    {
      var p := pieces[i];
      assert forall k :: 0 <= k < |p| ==> p[k] in raw && p[k] != ',';
      StripOfBlank(p);
    }
    BlankPiecesDropped(pieces);
  }

  /** Pieces that all strip to nothing leave no origin. */
  lemma {:induction false} BlankPiecesDropped(pieces: seq<string>)
    requires forall i :: 0 <= i < |pieces| ==> Strip(pieces[i]) == []
    ensures StrippedOrigins(pieces) == []
    decreases |pieces|
  {
    if pieces != [] {
      BlankPiecesDropped(pieces[1..]);
    }
  }

  /** The frame stride used when the setting is absent. */
  const DefaultFrameStride: nat := 3

  /**
   * FRAME_STRIDE: the configured integer, raised to 1 when it is smaller; 3 when the
   * setting is absent. Reading the integer out of the setting's text is not modelled.
   */
  function FrameStride(configured: Option<int>): (stride: nat)
    ensures stride >= 1
    ensures configured.None? ==> stride == DefaultFrameStride
    ensures configured.Some? ==> stride >= configured.value && (stride == configured.value || stride == 1)
  {
    var value := if configured.Some? then configured.value else DefaultFrameStride;
    if value < 1 then 1 else value
  }
}
