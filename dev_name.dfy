/** main.go's `extractDev`: the device name is the last '/'-separated piece of a path. */
module DevName {
  import opened GoInts
  import opened GoStrings

  /** `extractDev(devicePath)`: an error exactly when the path holds no '/'
      (Split then gives a single piece); otherwise the text after the last '/',
      which is "" for a path ending in '/'. */
  function ExtractDev(devicePath: string): (r: Result<string>)
    ensures r.Err? <==> '/' !in devicePath
    ensures r.Err? ==> r.message == "Invalid pathname of " + devicePath + "received"
    ensures r.Ok? ==>
      && '/' !in r.value
      && |r.value| < |devicePath|
      && devicePath[|devicePath| - |r.value| - 1] == '/'
      && devicePath[|devicePath| - |r.value|..] == r.value
  {
    var components := Split(devicePath, '/');
    SplitSinglePiece(devicePath, '/');
    SplitLastPiece(devicePath, '/');
    if |components| < 2 then Err("Invalid pathname of " + devicePath + "received")
    else Ok(components[|components| - 1])
  }

  lemma ExtractDevOfDevSda()
    ensures ExtractDev("/dev/sda") == Ok("sda")
  {
    var r := ExtractDev("/dev/sda");
    assert "/dev/sda"[4] == '/';
    assert |r.value| == 3;
  }

  /** A path ending in '/' names the empty device, without an error. */
  lemma ExtractDevTrailingSlash(p: string)
    requires |p| > 0 && p[|p| - 1] == '/'
    ensures ExtractDev(p) == Ok("")
  {
    var r := ExtractDev(p);
    assert p[|p| - 1] in p;
    SuffixEndsLikeText(p, r.value);
  }

  lemma SuffixEndsLikeText(s: string, t: string)
    requires |t| <= |s| && s[|s| - |t|..] == t
    ensures |t| > 0 ==> t[|t| - 1] == s[|s| - 1]
  {
  }

  /** A name without any '/' is refused. */
  lemma ExtractDevBareName(p: string)
    requires '/' !in p
    ensures ExtractDev(p).Err?
  {
  }
}
