/** The file-naming convention that carries a subtitle track's id, language
    and title through loose files: DumpMKV writes `<id>_<lang>_<title>.ass`
    (or `.sub`), mkvlib/mkv.go:65-70, and CreateMKV reads language and title
    back from the `_`-separated base name, mkvlib/mkv.go:143-152. */
module Naming {
  import opened Strings
  import opened MkvInfo

  /** The extension DumpMKV gives a subtitle track of codec `codec`. */
  function Extension(codec: string): (r: string)
    ensures r == ".ass" <==> codec == AssCodec
    ensures r == ".ass" || r == ".sub"
  {
    if codec == AssCodec then ".ass" else ".sub"
  }

  /** `<id>_<language>_<title>` followed by the codec's extension. */
  function EncodeName(id: int, language: string, title: string, codec: string): (r: string)
    ensures HasSuffix(r, ".ass") <==> codec == AssCodec
    ensures HasPrefix(r, IntToString(id) + "_")
  {
    var stem := IntToString(id) + "_" + language + "_" + title;
    var r := stem + Extension(codec);
    assert r[..|IntToString(id) + "_"|] == IntToString(id) + "_";
    assert r[|r| - 4..] == Extension(codec);
    r
  }

  /** Language and title as CreateMKV resolves them for one track. */
  datatype Meta = Meta(language: string, title: string)

  /** Segment 1 gives the language and segment 2 the title; a caller default
      is used only when that segment does not exist. Segment 0 is ignored. */
  function DecodeMeta(stem: string, slang: string, stitle: string): Meta {
    var segs := Split(stem, '_');
    Meta(if |segs| > 1 then segs[1] else slang, if |segs| > 2 then segs[2] else stitle)
  }

  /** A name without any '_' keeps both of the caller's defaults. */
  lemma DecodeOneSegment(stem: string, slang: string, stitle: string)
    requires '_' !in stem
    ensures DecodeMeta(stem, slang, stitle) == Meta(slang, stitle)
  {
    SplitNoSep(stem, '_');
  }

  /** The metadata CreateMKV derives from a track path: the base name
      without its extension, decoded. */
  function TrackMeta(path: string, slang: string, stitle: string): Meta {
    DecodeMeta(Stem(BaseName(path)), slang, stitle)
  }

  /** The id segment does not influence the decoded metadata. */
  lemma {:induction false} DecodeIgnoresFirstSegment(x: string, y: string, rest: string, slang: string, stitle: string)
    requires '_' !in x && '_' !in y
    ensures DecodeMeta(x + "_" + rest, slang, stitle) == DecodeMeta(y + "_" + rest, slang, stitle)
  {
    SplitAt(x, '_', rest);
    SplitAt(y, '_', rest);
    assert x + "_" + rest == x + ['_'] + rest;
    assert y + "_" + rest == y + ['_'] + rest;
    assert (x + "_" + rest)[|x|] == '_';
    assert (y + "_" + rest)[|y|] == '_';
  }

  /** With exactly two segments the language comes from the name and the
      title from the caller's default. */
  lemma {:induction false} DecodeTwoSegments(a: string, b: string, slang: string, stitle: string)
    requires '_' !in a && '_' !in b
    ensures DecodeMeta(a + "_" + b, slang, stitle) == Meta(b, stitle)
  {
    SplitAt(a, '_', b);
    SplitNoSep(b, '_');
    assert a + "_" + b == a + ['_'] + b;
    assert (a + "_" + b)[|a|] == '_';
  }

  /** With three segments both fields come from the name, even when empty. */
  lemma {:induction false} DecodeThreeSegments(a: string, b: string, c: string, slang: string, stitle: string)
    requires '_' !in a && '_' !in b && '_' !in c
    ensures DecodeMeta(a + "_" + b + "_" + c, slang, stitle) == Meta(b, c)
  {
    var s := a + "_" + b + "_" + c;
    assert s == a + ['_'] + (b + ['_'] + c);
    SplitAt(a, '_', b + ['_'] + c);
    SplitAt(b, '_', c);
    SplitNoSep(c, '_');
    assert s[|a|] == '_';
  }

  /** An encoded name is a single path element when language and title are. */
  lemma EncodeNameNoSlash(id: int, language: string, title: string, codec: string)
    requires '/' !in language && '/' !in title
    ensures '/' !in EncodeName(id, language, title, codec)
    ensures EncodeName(id, language, title, codec) != ""
  {
    IntToStringPlain(id);
    var stem := IntToString(id) + "_" + language + "_" + title;
    assert EncodeName(id, language, title, codec) == stem + Extension(codec);
  }

  /** The name DumpMKV writes for a track decodes, inside CreateMKV, back to
      the track's language and title, whatever directory it is written to. */
  lemma RoundTrip(output: string, id: int, language: string, title: string, codec: string,
                  slang: string, stitle: string)
    requires '_' !in language && '_' !in title
    requires '/' !in language && '/' !in title
    ensures TrackMeta(Join(output, EncodeName(id, language, title, codec)), slang, stitle)
            == Meta(language, title)
  {
    var idStr := IntToString(id);
    IntToStringPlain(id);
    var stem := idStr + "_" + language + "_" + title;
    var name := EncodeName(id, language, title, codec);
    var ext := Extension(codec)[1..];
    assert '/' !in ext && '.' !in ext;
    assert name == stem + ['.'] + ext;
    assert '/' !in name;
    BaseNameOfJoin(output, name);
    StemOfExtension(stem, ext);
    DecodeThreeSegments(idStr, language, title, slang, stitle);
  }

  /** `3_eng_Full` resolves to its own language and title, not the defaults. */
  lemma ExampleFilenameWins()
    ensures DecodeMeta("3_eng_Full", "jpn", "Default") == Meta("eng", "Full")
  {
    DecodeThreeSegments("3", "eng", "Full", "jpn", "Default");
    assert "3" + "_" + "eng" + "_" + "Full" == "3_eng_Full";
  }

  /** `3__` has three segments, so both fields resolve to empty strings and
      the caller's defaults are not used. */
  lemma ExampleEmptySegments()
    ensures DecodeMeta("3__", "jpn", "Default") == Meta("", "")
  {
    DecodeThreeSegments("3", "", "", "jpn", "Default");
    assert "3" + "_" + "" + "_" + "" == "3__";
  }
}
