/** The output-name rule of the image compressor: the extension after the last
    dot is replaced by `.webp`, or `.webp` is appended when there is no dot. */
module WebpName {

  const WebpExtension: string := ".webp"

  predicate EndsWith(s: string, suffix: string) {
    |suffix| <= |s| && s[|s| - |suffix|..] == suffix
  }

  /** `lastIndexOf` for a single character, counted in Dafny characters
      (Unicode scalar values) rather than the UTF-16 code units JavaScript
      counts: the position of the last `c` in `s`, or -1 when `s` has none. */
  function LastIndexOf(s: string, c: char): (r: int)
    ensures -1 <= r < |s|
    ensures r == -1 <==> c !in s
    ensures r >= 0 ==> s[r] == c && c !in s[r + 1..]
  {
    if |s| == 0 then -1
    else if s[|s| - 1] == c then |s| - 1
    else
      var init := s[..|s| - 1];
      assert s == init + [s[|s| - 1]];
      var r := LastIndexOf(init, c);
      assert r >= 0 ==> s[r + 1..] == init[r + 1..] + [s[|s| - 1]];
      r
  }

  /** `convertToWebp`: the name the compressed file is given. */
  function ConvertToWebp(fileName: string): (r: string)
    ensures EndsWith(r, WebpExtension)
    ensures '.' !in fileName ==> r == fileName + WebpExtension
    ensures '.' in fileName ==>
      var stem := |r| - |WebpExtension|;
      && stem < |fileName|
      && r[..stem] == fileName[..stem]
      && fileName[stem] == '.'
      && '.' !in fileName[stem + 1..]
  {
    var lastDotIndex := LastIndexOf(fileName, '.');
    if lastDotIndex == -1 then
      fileName + WebpExtension
    else
      fileName[..lastDotIndex] + WebpExtension
  }

  /** Whatever the name, the extension that follows its last dot is dropped
      and `.webp` takes its place; the stem may itself contain dots. */
  lemma ReplacesLastExtension(stem: string, extension: string)
    requires '.' !in extension
    ensures ConvertToWebp(stem + "." + extension) == stem + WebpExtension
  {
    var name := stem + "." + extension;
    assert name[|stem|] == '.';
    assert name[|stem| + 1..] == extension;
    assert name[..|stem|] == stem;
    LastIndexOfUnique(name, '.', |stem|);
  }

  /** Converting an already converted name changes nothing. */
  lemma ConvertToWebpIdempotent(fileName: string)
    ensures ConvertToWebp(ConvertToWebp(fileName)) == ConvertToWebp(fileName)
  {
    var r := ConvertToWebp(fileName);
    var stem := r[..|r| - |WebpExtension|];
    assert r == stem + "." + "webp";
    ReplacesLastExtension(stem, "webp");
  }

  /** The position `LastIndexOf` reports is the only one that carries `c`
      with no further `c` after it. */
  lemma LastIndexOfUnique(s: string, c: char, i: nat)
    requires i < |s| && s[i] == c && c !in s[i + 1..]
    ensures LastIndexOf(s, c) == i
  {
  }
}
