/**
 * `StartActivity`: the first screen. It lists two sample video addresses,
 * each labelled with its position and file extension, and accepts a typed
 * address when it passes a coarse check on its dots. Choosing an address
 * opens the control screen with it.
 */
module StartScreen {
  import opened JavaText

  const URLS: seq<string> := ["http://mvvideo10.meitudata.com/5785a7fc4fc2a8429.mp4",
                              "http://live.hkstv.hk.lxdns.com/live/hks/playlist.m3u8"]

  /** What submitting a query does: show the "check the address" toast, or open the control screen. */
  datatype Submission = Rejected | Navigate(url: string)

  /**
   * `onQueryTextSubmit`: rejected when the query is empty, has no dot, or
   * its first dot is its last character. So a dot anywhere before the last
   * character is enough: "a.b." is accepted, "abc." is not.
   */
  function OnQueryTextSubmit(query: string): (r: Submission)
    ensures r.Navigate? <==> |query| > 0 && '.' in query[..|query| - 1]
    ensures r.Navigate? ==> r.url == query
  {
    if query == "" || '.' !in query || IndexOf(query, '.') == |query| - 1 then Rejected
    else
      assert query[IndexOf(query, '.')] == '.';
      assert query[..|query| - 1][IndexOf(query, '.')] == '.';
      Navigate(query)
  }

  /** The rule only looks at the first dot: a trailing dot after an earlier one passes. */
  lemma QueryExamples()
    ensures OnQueryTextSubmit("a.b.") == Navigate("a.b.")
    ensures OnQueryTextSubmit("abc.") == Rejected
    ensures OnQueryTextSubmit("") == Rejected
    ensures OnQueryTextSubmit(".") == Rejected
  {
    assert "a.b."[..3][1] == '.';
  }

  /**
   * The label's extension: everything from the last dot on, or nothing
   * when the address has no dot.
   */
  function ExtensionLabel(url: string): (r: string)
    ensures r == "" <==> '.' !in url
    ensures |r| <= |url|
    ensures r != "" ==> r[0] == '.' && '.' !in r[1..] && url == url[..|url| - |r|] + r
  {
    var pos := LastIndexOf(url, '.');
    if pos >= 0 && pos < |url| then
      assert url == url[..pos] + url[pos..];
      assert url[pos..][1..] == url[pos + 1..];
      url[pos..]
    else ""
  }

  /** The extension of `name.ext` is `.ext` when `ext` has no dot. */
  lemma ExtensionOfName(name: string, ext: string)
    requires '.' !in ext
    ensures ExtensionLabel(name + "." + ext) == "." + ext
  {
    var url := name + "." + ext;
    var r := ExtensionLabel(url);
    assert url[|name|] == '.';
    assert url[|name| + 1..] == ext;
  }

  /** `onBindViewHolder`'s label: "视频", the position, then the extension. */
  function ItemLabel(position: nat): string
    requires position < |URLS|
  {
    "视频" + IntToString(position) + ExtensionLabel(URLS[position])
  }

  /** An address ending in a dot and then a dot-free `ext` has the extension `.ext`. */
  lemma ExtensionOfSuffix(url: string, ext: string)
    requires |ext| < |url| && url[|url| - |ext| - 1] == '.'
    requires url[|url| - |ext|..] == ext && '.' !in ext
    ensures ExtensionLabel(url) == "." + ext
  {
    var k := |url| - |ext| - 1;
    assert url == url[..k] + "." + ext;
    ExtensionOfName(url[..k], ext);
  }

  /** The first sample address ends in ".mp4". */
  lemma FirstSampleEnding()
    ensures |URLS[0]| == 52 && URLS[0][48] == '.' && URLS[0][49..] == "mp4"
  {
  }

  /** The second sample address ends in ".m3u8". */
  lemma SecondSampleEnding()
    ensures |URLS[1]| == 53 && URLS[1][48] == '.' && URLS[1][49..] == "m3u8"
  {
  }

  /** The first sample entry is labelled "视频0.mp4". */
  lemma FirstSampleLabel()
    ensures ItemLabel(0) == "视频0.mp4"
  {
    FirstSampleEnding();
    ExtensionOfSuffix(URLS[0], "mp4");
    assert IntToString(0) == "0";
    assert ItemLabel(0) == "视频" + "0" + ".mp4";
  }

  /** The second sample entry is labelled "视频1.m3u8". */
  lemma SecondSampleLabel()
    ensures ItemLabel(1) == "视频1.m3u8"
  {
    SecondSampleEnding();
    ExtensionOfSuffix(URLS[1], "m3u8");
    assert IntToString(1) == "1";
    assert ItemLabel(1) == "视频" + "1" + ".m3u8";
  }

  /** An address with a dot before its last character is accepted. */
  lemma DotBeforeLast(q: string, i: nat)
    requires i < |q| - 1 && q[i] == '.'
    ensures OnQueryTextSubmit(q) == Navigate(q)
  {
    assert q[..|q| - 1][i] == '.';
  }
}
