/** The records the client-side helpers work on: a file format as the
    catalog page receives it and a glossary entry. Optional fields that are
    absent in a record are modelled by their empty value (`""` or `[]`):
    every helper reads an absent field exactly as it reads the empty one. */
module Catalog {
  import opened Seqs

  /** `{ title, url, type? }`; an absent `type` is `""`. */
  datatype Reference = Reference(title: string, url: string, kind: string)

  /** `{ pipeline, explanation }`. */
  datatype PipelineExample = PipelineExample(pipeline: string, explanation: string)

  datatype FileFormat = FileFormat(
    extension: string,
    name: string,
    description: string,
    area: seq<string>,
    areaIds: seq<string>,
    tools: seq<string>,
    encodingType: string,
    usedInRepositories: seq<string>,
    exampleFilenames: seq<string>,
    exampleFileContent: string,
    exampleFileExplanation: seq<string>,
    pipelineExamples: seq<PipelineExample>,
    references: seq<Reference>)

  /** `{ term, aliases?, definition }`; absent aliases are `[]`. */
  datatype GlossaryTerm = GlossaryTerm(term: string, aliases: seq<string>, definition: string)

  /** The `area` entries of the first `n` formats, format by format and in
      each format in order: the sequence the area loops visit. */
  function AreasUpTo(formats: seq<FileFormat>, n: nat): seq<string>
    requires n <= |formats|
  {
    if n == 0 then [] else AreasUpTo(formats, n - 1) + formats[n - 1].area
  }

  function AreaList(formats: seq<FileFormat>): seq<string>
  {
    AreasUpTo(formats, |formats|)
  }

  /** An entry is visited exactly when some format lists it. */
  lemma {:induction false} AreasUpToMembers(formats: seq<FileFormat>, n: nat, a: string)
    requires n <= |formats|
    ensures a in AreasUpTo(formats, n) <==> exists k :: 0 <= k < n && a in formats[k].area
  {
    if n > 0 {
      AreasUpToMembers(formats, n - 1, a);
      if a in formats[n - 1].area {
        assert 0 <= n - 1 < n && a in formats[n - 1].area;
      }
    }
  }

  lemma AreaListMembers(formats: seq<FileFormat>, a: string)
    ensures a in AreaList(formats) <==> exists f :: f in formats && a in f.area
  {
    AreasUpToMembers(formats, |formats|, a);
    if exists f :: f in formats && a in f.area {
      var f :| f in formats && a in f.area;
      var k :| 0 <= k < |formats| && formats[k] == f;
      assert 0 <= k < |formats| && a in formats[k].area;
    }
  }
}
