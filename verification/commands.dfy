/** The `load` and `save` commands of src/controller/commands/Load.java and Save.java: the
    path-length check, the choice of codec by the path's last three UTF-16 code units, and what
    each command does to the image store. The PPM codec is the one modelled in PPMCodec;
    the ImageIO-based codecs for bmp, jpg and png are not part of this model, so what they
    read is a parameter and what they are asked to write is returned as a record. */
module Commands {
  import opened Outcomes
  import opened ImageCore
  import opened ImageModels
  import opened PPMCodec
  import opened PPMProperties

  /** The four codecs a command can dispatch to. */
  datatype FileType = PPM | BMP | JPG | PNG

  /** The suffix spelling of each codec, as the `switch` cases write it. */
  function SuffixOf(t: FileType): string {
    match t
    case PPM => "ppm"
    case BMP => "bmp"
    case JPG => "jpg"
    case PNG => "png"
  }

  // ---------------------------------------------------------------------------------------
  // Java strings as UTF-16 code units
  // ---------------------------------------------------------------------------------------

  /** The UTF-16 code units a Java `String` stores for `c`: the character itself below
      U+10000, otherwise a high and a low surrogate. */
  function CodeUnits(c: char): (u: seq<int>)
    ensures c as int < 0x1_0000 ==> u == [c as int]
    ensures 0x1_0000 <= c as int ==> |u| == 2 && 0xDC00 <= u[1] <= 0xDFFF
  {
    if c as int < 0x1_0000 then [c as int]
    else
      var v := c as int - 0x1_0000;
      [0xD800 + v / 0x400, 0xDC00 + v % 0x400]
  }

  /** The code units of `s`: what `length()` counts and `substring` indexes. */
  function Utf16(s: string): seq<int> {
    if s == [] then [] else Utf16(s[..|s| - 1]) + CodeUnits(s[|s| - 1])
  }

  /** The code units of a string of characters below the surrogate range, one per character. */
  function Units(a: string): seq<int> {
    seq(|a|, i requires 0 <= i < |a| => a[i] as int)
  }

  predicate BelowSurrogates(a: string) {
    forall i | 0 <= i < |a| :: a[i] as int < 0xD800
  }

  predicate EndsWith<T(==)>(s: seq<T>, t: seq<T>) {
    |t| <= |s| && s[|s| - |t|..] == t
  }

  /** `in.substring(totalLength - 3)`: the last three code units of a path. */
  function Suffix(path: string): seq<int>
    requires |Utf16(path)| >= 3
  {
    Utf16(path)[|Utf16(path)| - 3..]
  }

  /** The `switch (fileType)` of both commands: exactly the code units of one of the four
      lower-case suffixes select a codec, each its own; anything else selects none. */
  function FileTypeOf(suffix: seq<int>): (r: Option<FileType>)
    ensures r.Some? ==> Units(SuffixOf(r.value)) == suffix
    ensures r.None? ==> forall t: FileType :: Units(SuffixOf(t)) != suffix
  {
    if suffix == Units("ppm") then Some(PPM)
    else if suffix == Units("bmp") then Some(BMP)
    else if suffix == Units("jpg") then Some(JPG)
    else if suffix == Units("png") then Some(PNG)
    else None
  }

  /** The codec `load` picks for `in`: paths shorter than five code units and unknown
      suffixes are rejected with "Invalid file!". */
  function LoadTarget(path: string): (r: Result<FileType>)
    ensures |Utf16(path)| < 5 ==> r == Failure(InvalidFile)
    ensures r.Failure? ==> r.error == InvalidFile
    ensures r.Success? <==> |Utf16(path)| >= 5 && FileTypeOf(Suffix(path)).Some?
    ensures r.Success? ==> Units(SuffixOf(r.value)) == Suffix(path)
  {
    if |Utf16(path)| < 5 then Failure(InvalidFile)
    else
      var t := FileTypeOf(Suffix(path));
      if t.None? then Failure(InvalidFile) else Success(t.value)
  }

  /** The codec `save` picks for `in`: a short path fails with "Invalid file!", an unknown
      suffix with "Invalid filename!". */
  function SaveTarget(path: string): (r: Result<FileType>)
    ensures |Utf16(path)| < 5 ==> r == Failure(InvalidFile)
    ensures |Utf16(path)| >= 5 && FileTypeOf(Suffix(path)).None? ==> r == Failure(InvalidFilename)
    ensures r.Success? <==> |Utf16(path)| >= 5 && FileTypeOf(Suffix(path)).Some?
    ensures r.Success? ==> Units(SuffixOf(r.value)) == Suffix(path)
  {
    if |Utf16(path)| < 5 then Failure(InvalidFile)
    else
      var t := FileTypeOf(Suffix(path));
      if t.None? then Failure(InvalidFilename) else Success(t.value)
  }

  // ---------------------------------------------------------------------------------------
  // load
  // ---------------------------------------------------------------------------------------

  /** The image `Load.execute` hands to `setImage`, or the exception it raises. `file` is the
      text of the file at `in` (none when it cannot be opened), read by the PPM codec;
      `decoded` is what the ImageIO-based codec returns for `in`. */
  function LoadedImage(path: string, file: Option<string>, decoded: Result<Image>): (r: Result<Image>)
    ensures LoadTarget(path).Failure? ==> r == Failure(InvalidFile)
    ensures LoadTarget(path) == Success(PPM) ==> r == ParsePPM(file)
    ensures LoadTarget(path).Success? && LoadTarget(path).value != PPM ==> r == decoded
  {
    var t :- LoadTarget(path);
    if t == PPM then ParsePPM(file) else decoded
  }

  /** `Load.execute(model)`: read the image at `path` with the codec its suffix names and
      store it under `name`; on any failure the store is left as it was. */
  method ExecuteLoad(model: ImageModel, path: string, name: string, file: Option<string>,
                     decoded: Result<Image>) returns (o: Outcome)
    modifies model
    ensures var r := LoadedImage(path, file, decoded);
      (r.Success? ==> o == Pass && model.images == old(model.images)[name := r.value]) &&
      (r.Failure? ==> o == Fail(r.error) && model.images == old(model.images))
  {
    var units := Utf16(path);
    var totalLength := |units|;
    if totalLength < 5 {
      return Fail(InvalidFile);
    }
    var fileType := units[totalLength - 3..];
    var img: Result<Image>;
    if fileType == Units("ppm") {
      img := PPMCodec.Load(file);
    } else if fileType == Units("bmp") || fileType == Units("jpg") || fileType == Units("png") {
      img := decoded;
    } else {
      return Fail(InvalidFile);
    }
    if img.Failure? {
      return Fail(img.error);
    }
    o := model.SetImage(name, Some(img.value));
  }

  // ---------------------------------------------------------------------------------------
  // save
  // ---------------------------------------------------------------------------------------

  /** The write a `save` asks its codec for: the PPM text itself, or the image handed to an
      ImageIO-based encoder together with its format. */
  datatype FileWrite =
    | PPMWrite(path: string, content: string)
    | EncoderWrite(format: FileType, path: string, image: Image)

  /** What `Save.execute` writes, or the exception it raises. The image is looked up before
      the path is examined, so a missing name fails whatever the path. */
  function SavedFile(images: map<string, Image>, path: string, name: string): (r: Result<FileWrite>)
    ensures name !in images ==> r == Failure(NotFound)
    ensures name in images && SaveTarget(path).Failure? ==> r == Failure(SaveTarget(path).error)
    ensures r.Success? <==> name in images && SaveTarget(path).Success?
    ensures r.Success? ==> r.value.path == path
    ensures r.Success? && SaveTarget(path).value == PPM ==> r.value == PPMWrite(path, PPMText(images[name]))
    ensures r.Success? && SaveTarget(path).value != PPM ==>
      r.value == EncoderWrite(SaveTarget(path).value, path, images[name])
  {
    if name !in images then Failure(NotFound)
    else
      var t :- SaveTarget(path);
      if t == PPM then Success(PPMWrite(path, PPMText(images[name])))
      else Success(EncoderWrite(t, path, images[name]))
  }

  /** `Save.execute(model)`: look the image up, check the path, and build the write for the
      codec its suffix names. The store is only read. */
  method ExecuteSave(model: ImageModel, path: string, name: string) returns (r: Result<FileWrite>)
    ensures r == SavedFile(model.images, path, name)
  {
    var img := model.GetImage(name);
    if img.Failure? {
      return Failure(img.error);
    }
    var units := Utf16(path);
    var totalLength := |units|;
    if totalLength < 5 {
      return Failure(InvalidFile);
    }
    var fileType := units[totalLength - 3..];
    if fileType == Units("ppm") {
      var content := PPMCodec.Save(img.value);
      r := Success(PPMWrite(path, content));
    } else if fileType == Units("bmp") {
      r := Success(EncoderWrite(BMP, path, img.value));
    } else if fileType == Units("jpg") {
      r := Success(EncoderWrite(JPG, path, img.value));
    } else if fileType == Units("png") {
      r := Success(EncoderWrite(PNG, path, img.value));
    } else {
      r := Failure(InvalidFilename);
    }
  }

  // ---------------------------------------------------------------------------------------
  // Properties
  // ---------------------------------------------------------------------------------------

  /** The code units of a concatenation are the code units of its parts. */
  lemma {:induction false} Utf16Append(a: string, b: string)
    ensures Utf16(a + b) == Utf16(a) + Utf16(b)
    decreases |b|
  {
    if b == [] {
      assert a + b == a;
    } else {
      var b' := b[..|b| - 1];
      assert (a + b)[..|a + b| - 1] == a + b';
      assert (a + b)[|a + b| - 1] == b[|b| - 1];
      Utf16Append(a, b');
    }
  }

  /** Below the surrogate range a character is one code unit. */
  lemma {:induction false} Utf16BelowSurrogates(a: string)
    requires BelowSurrogates(a)
    ensures Utf16(a) == Units(a)
    decreases |a|
  {
    if a != [] {
      var a' := a[..|a| - 1];
      Utf16BelowSurrogates(a');
      assert Units(a) == Units(a') + [a[|a| - 1] as int];
    }
  }

  lemma EndsWithSnoc<T>(x: seq<T>, u: T, y: seq<T>, v: T)
    ensures EndsWith(x + [u], y + [v]) <==> u == v && EndsWith(x, y)
  {
    var xu, yv := x + [u], y + [v];
    if EndsWith(xu, yv) {
      assert xu[|xu| - 1] == yv[|yv| - 1];
      assert x[|x| - |y|..] == xu[|xu| - |yv|..][..|y|];
    }
    if u == v && EndsWith(x, y) {
      assert xu[|xu| - |yv|..] == x[|x| - |y|..] + [u];
    }
  }

  /** For a suffix below the surrogate range, the code units of `s` end in the suffix's
      code units exactly when `s` ends in the suffix's characters: the low surrogate that
      ends an astral character never equals such a unit. */
  lemma {:induction false} EndsWithUnits(s: string, a: string)
    requires BelowSurrogates(a)
    ensures EndsWith(Utf16(s), Units(a)) <==> EndsWith(s, a)
    decreases |a|
  {
    if a == [] {
      assert Units(a) == [];
    } else if s == [] {
    } else {
      var s', c := s[..|s| - 1], s[|s| - 1];
      var a', d := a[..|a| - 1], a[|a| - 1];
      assert s == s' + [c] && a == a' + [d];
      assert Units(a) == Units(a') + [d as int];
      EndsWithSnoc(s', c, a', d);
      if c as int < 0x1_0000 {
        EndsWithSnoc(Utf16(s'), c as int, Units(a'), d as int);
        EndsWithUnits(s', a');
      } else {
        var u := Utf16(s') + CodeUnits(c);
        assert u == (Utf16(s') + [CodeUnits(c)[0]]) + [CodeUnits(c)[1]];
        EndsWithSnoc(Utf16(s') + [CodeUnits(c)[0]], CodeUnits(c)[1], Units(a'), d as int);
      }
    }
  }

  /** The code units of each suffix spelling identify its codec. */
  lemma SuffixOfIsInjective(s: FileType, t: FileType)
    requires Units(SuffixOf(s)) == Units(SuffixOf(t))
    ensures s == t
  {
    assert Units(SuffixOf(s))[0] == SuffixOf(s)[0] as int;
    assert Units(SuffixOf(s))[1] == SuffixOf(s)[1] as int;
  }

  /** Both commands accept the same paths and pick the same codec for them; they differ
      only in the error an unknown suffix raises. */
  lemma LoadAndSaveAgree(path: string)
    ensures LoadTarget(path).Success? <==> SaveTarget(path).Success?
    ensures LoadTarget(path).Success? ==> LoadTarget(path).value == SaveTarget(path).value
  {
  }

  /** `load` picks codec `t` for a path exactly when the path is at least five code units
      long and ends in the characters of `t`'s suffix. */
  lemma {:induction false} LoadTargetBySuffix(path: string, t: FileType)
    ensures LoadTarget(path) == Success(t) <==> |Utf16(path)| >= 5 && EndsWith(path, SuffixOf(t))
  {
    assert BelowSurrogates(SuffixOf(t));
    EndsWithUnits(path, SuffixOf(t));
    if |Utf16(path)| >= 5 {
      assert EndsWith(Utf16(path), Units(SuffixOf(t))) <==> Suffix(path) == Units(SuffixOf(t));
      var r := FileTypeOf(Suffix(path));
      if r.Some? && Suffix(path) == Units(SuffixOf(t)) {
        SuffixOfIsInjective(r.value, t);
      }
    }
  }

  /** Any stem of at least two code units followed by a codec's suffix selects that codec in
      both commands. */
  lemma {:induction false} SuffixSelectsCodec(stem: string, t: FileType)
    requires |Utf16(stem)| >= 2
    ensures LoadTarget(stem + SuffixOf(t)) == Success(t)
    ensures SaveTarget(stem + SuffixOf(t)) == Success(t)
  {
    var path := stem + SuffixOf(t);
    assert BelowSurrogates(SuffixOf(t));
    Utf16Append(stem, SuffixOf(t));
    Utf16BelowSurrogates(SuffixOf(t));
    assert path[|path| - 3..] == SuffixOf(t);
    LoadTargetBySuffix(path, t);
    LoadAndSaveAgree(path);
  }

  /** The suffix test is case-sensitive: an upper-case "PPM" is rejected by both commands. */
  lemma {:induction false} UpperCaseSuffixRejected(stem: string)
    ensures LoadTarget(stem + "PPM") == Failure(InvalidFile)
    ensures SaveTarget(stem + "PPM").Failure?
  {
    var path := stem + "PPM";
    assert BelowSurrogates("PPM");
    Utf16Append(stem, "PPM");
    Utf16BelowSurrogates("PPM");
    if |Utf16(path)| >= 5 {
      assert Suffix(path) == Units("PPM");
      assert Units("PPM")[0] == 'P' as int;
    }
  }

  /** The path length is counted in UTF-16 code units, as `String.length()` counts: an emoji
      followed by "ppm" is four characters but five code units, so `load` accepts it. */
  lemma AstralPathAccepted()
    ensures |"\U{1F600}ppm"| == 4
    ensures LoadTarget("\U{1F600}ppm") == Success(PPM)
  {
    var path := "\U{1F600}ppm";
    assert path == "\U{1F600}" + "ppm";
    Utf16Append("\U{1F600}", "ppm");
    assert Utf16("\U{1F600}") == CodeUnits('\U{1F600}');
    SuffixSelectsCodec("\U{1F600}", PPM);
  }

  /** Saving a stored image to a ".ppm" path and loading the written text back gives the
      same image. */
  lemma {:induction false} SaveThenLoadPPM(images: map<string, Image>, path: string, name: string,
                                          decoded: Result<Image>)
    requires name in images && |Utf16(path)| >= 5 && EndsWith(path, "ppm")
    ensures SavedFile(images, path, name) == Success(PPMWrite(path, PPMText(images[name])))
    ensures LoadedImage(path, Some(PPMText(images[name])), decoded) == Success(images[name])
  {
    LoadTargetBySuffix(path, PPM);
    LoadAndSaveAgree(path);
    LoadOfSave(images[name]);
  }
}
