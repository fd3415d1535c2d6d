/**
  Worked examples of a result directory: one batch "00001" with its metadata
  file "00001-seed.yaml" and its image "00001-seed.png"; the same directory
  with the upscaled variant "00001-seed-esrgan4x.png" beside the image; and
  with a second image "00001-seed-dup.png" of the same batch. The entries are
  parameters fixed by their names, so the file contents stay arbitrary.
*/
module Scenarios {
  import opened Wrappers
  import opened Text
  import opened ResultFiles
  import opened PromptsDb

  lemma YamlNames(name: string)
    requires name == "00001-seed.yaml"
    ensures Contains(name, ".yaml")
    ensures !Contains(name, ".png")
    ensures FirstField(name, '-') == "00001"
    ensures FirstField(name, '.') == "00001-seed"
  {
    assert OccursAt(name, ".yaml", 10);
    OccursImpliesContains(name, ".yaml", 10);
    MissingCharRulesOut(name, ".png", 'p');
    YamlBatch(name);
    YamlStem(name);
  }

  lemma YamlBatch(name: string)
    requires name == "00001-seed.yaml"
    ensures FirstField(name, '-') == "00001"
  {
    var r := "00001";
    assert name[..5] == r && name[5] == '-';
    FirstFieldUnique(name, '-', r);
  }

  lemma YamlStem(name: string)
    requires name == "00001-seed.yaml"
    ensures FirstField(name, '.') == "00001-seed"
  {
    var r := "00001-seed";
    assert name[..10] == r && name[10] == '.';
    FirstFieldUnique(name, '.', r);
  }

  lemma PngNames(name: string)
    requires name == "00001-seed.png"
    ensures Contains(name, "00001") && Contains(name, ".png") && !Contains(name, "esrgan4x")
    ensures !Contains(name, ".yaml")
  {
    assert OccursAt(name, "00001", 0);
    OccursImpliesContains(name, "00001", 0);
    assert OccursAt(name, ".png", 10);
    OccursImpliesContains(name, ".png", 10);
    MissingCharRulesOut(name, "esrgan4x", 'r');
    MissingCharRulesOut(name, ".yaml", 'y');
  }

  lemma UpscaledNames(name: string)
    requires name == "00001-seed-esrgan4x.png"
    ensures Contains(name, "esrgan4x")
  {
    assert OccursAt(name, "esrgan4x", 11);
    OccursImpliesContains(name, "esrgan4x", 11);
  }

  lemma DupNames(name: string)
    requires name == "00001-seed-dup.png"
    ensures Contains(name, "00001") && Contains(name, ".png") && !Contains(name, "esrgan4x")
  {
    assert OccursAt(name, "00001", 0);
    OccursImpliesContains(name, "00001", 0);
    assert OccursAt(name, ".png", 14);
    OccursImpliesContains(name, ".png", 14);
    MissingCharRulesOut(name, "esrgan4x", 'r');
  }

  /** The upscaled variant beside the image is not a candidate: the image is still the one match. */
  lemma UpscaledVariantIgnored(yaml: Entry, png: Entry, upscaled: Entry)
    requires yaml.name == "00001-seed.yaml"
    requires png.File? && png.name == "00001-seed.png"
    requires upscaled.name == "00001-seed-esrgan4x.png"
    ensures GetImage("00001", [yaml, png, upscaled]) == Ok(png.contents)
  {
    YamlNames(yaml.name);
    PngNames(png.name);
    UpscaledNames(upscaled.name);
    assert UniqueImageAt("00001", [yaml, png, upscaled], 1);
    GetImageCases("00001", [yaml, png, upscaled]);
  }

  /** A second image of the same batch makes the match fail. */
  lemma SecondImageRejected(yaml: Entry, png: Entry, upscaled: Entry, dup: Entry)
    requires yaml.name == "00001-seed.yaml"
    requires png.name == "00001-seed.png"
    requires upscaled.name == "00001-seed-esrgan4x.png"
    requires dup.name == "00001-seed-dup.png"
    ensures GetImage("00001", [yaml, png, upscaled, dup]) == Err(NoUniqueImage)
  {
    PngNames(png.name);
    DupNames(dup.name);
    var es := [yaml, png, upscaled, dup];
    assert IsImageFor("00001", es[1]) && IsImageFor("00001", es[3]);
    GetImageCases("00001", es);
  }

  /** The metadata file's parsed mapping in the example. */
  const Parsed: map<string, Value> := map[
    "prompt" := Str("a cat"), "seed" := Int(42), "target" := Str("txt2img"),
    "cfg_scale" := Float(7.0), "ddim_steps" := Int(20), "sampler_name" := Str("euler")]

  /** The example's record and the row it becomes. */
  function Merged(name: string, image: seq<Byte>): Record {
    Parsed + map["filename" := Str(name), "image" := Blob(image)]
  }

  function ExpectedRow(image: seq<Byte>): Row {
    Row("00001-seed", Str("a cat"), AiApp, Int(42), Blob(image), Str("txt2img"), Float(7.0), Int(20), Str("euler"))
  }

  /** In a directory holding only the metadata file and its image, the image is the one match. */
  lemma ImageOfBatch(yaml: Entry, png: Entry)
    requires yaml.name == "00001-seed.yaml"
    requires png.File? && png.name == "00001-seed.png"
    ensures GetImage("00001", [yaml, png]) == Ok(png.contents)
  {
    YamlNames(yaml.name);
    PngNames(png.name);
    assert UniqueImageAt("00001", [yaml, png], 1);
    GetImageCases("00001", [yaml, png]);
  }

  /** Processing the metadata file merges its parsed mapping with its name and the image's bytes. */
  lemma ProcessBatch(yaml: Entry, png: Entry, load: Loader)
    requires yaml.File? && yaml.name == "00001-seed.yaml" && load(yaml.contents) == Mapping(Parsed)
    requires png.File? && png.name == "00001-seed.png"
    ensures ProcessFile([yaml, png], yaml, load) == Ok([Merged(yaml.name, png.contents)])
  {
    YamlNames(yaml.name);
    ImageOfBatch(yaml, png);
  }

  /**
    A directory holding the metadata file and its image yields one record: the
    parsed mapping with the file name and the image's bytes.
  */
  lemma WalkOneBatch(yaml: Entry, png: Entry, load: Loader)
    requires yaml.File? && yaml.name == "00001-seed.yaml" && load(yaml.contents) == Mapping(Parsed)
    requires png.File? && png.name == "00001-seed.png"
    ensures Walk([yaml, png], ProcessWith(load)) == Ok([Merged(yaml.name, png.contents)])
  {
    var root, proc := [yaml, png], ProcessWith(load);
    var rec := Merged(yaml.name, png.contents);
    ProcessBatch(yaml, png, load);
    YamlNames(yaml.name);
    PngNames(png.name);
    assert TopYield(root, root[0], proc) == Ok([rec]);
    assert TopWalk(root, 0, proc) == Ok([]);
    assert [] + [rec] == [rec];
    assert TopWalk(root, 1, proc) == Ok([rec]);
    assert TopYield(root, root[1], proc) == Ok([]);
    assert [rec] + [] == [rec];
  }

  lemma MergedKey(name: string, image: seq<Byte>)
    requires name == "00001-seed.yaml"
    ensures RecordKey(Merged(name, image)) == Ok("00001-seed")
  {
    YamlNames(name);
    assert Merged(name, image)["filename"] == Str(name);
  }

  lemma MergedRow(name: string, image: seq<Byte>)
    ensures BuildRow("00001-seed", Merged(name, image)) == Ok(ExpectedRow(image))
  {
    var rec := Merged(name, image);
    assert HasInsertedKeys(rec);
    assert rec["prompt"] == Str("a cat") && rec["seed"] == Int(42) && rec["image"] == Blob(image);
    assert rec["target"] == Str("txt2img") && rec["cfg_scale"] == Float(7.0);
    assert rec["ddim_steps"] == Int(20) && rec["sampler_name"] == Str("euler");
  }

  /**
    Loading that record into an empty table adds one row, keyed "00001-seed",
    with prompt "a cat", seed 42 and type "txt2img".
  */
  lemma SinkOneBatch(name: string, image: seq<Byte>)
    requires name == "00001-seed.yaml"
    ensures Sink(map[], [Merged(name, image)], None) == Outcome(map["00001-seed" := ExpectedRow(image)], None)
  {
    var rec := Merged(name, image);
    MergedKey(name, image);
    MergedRow(name, image);
    assert Handle(map[], rec, 0, None) == Ok(map["00001-seed" := ExpectedRow(image)]);
    var it := HandleAt(None);
    assert it(map[], rec, 0) == Handle(map[], rec, 0, None);
    assert Run(map[], [rec], it, 0) == Outcome(map[], None);
    assert [rec][0] == rec;
    assert Sink(map[], [rec], None) == Run(map[], [rec], it, 1);
  }
}
