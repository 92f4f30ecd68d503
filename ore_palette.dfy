// The palette of ore colours: a chunk entry's 4-bit index selects one of them.
module OrePalette {
  import opened Bytes
  import opened Wrappers

  datatype Color = Rgb(red: byte, green: byte, blue: byte)

  datatype Ore = Ore(name: string, color: Color)

  const KnownOres: seq<Ore> := [
    Ore("Amethyst", Rgb(177, 50, 179)),
    Ore("Bedrock", Rgb(0, 0, 0)),
    Ore("Diamond", Rgb(48, 163, 155)),
    Ore("Gold", Rgb(163, 156, 21)),
    Ore("Lava", Rgb(169, 25, 6)),
    Ore("Quartz", Rgb(220, 220, 220)),
    Ore("Uranium", Rgb(51, 167, 49))
  ]

  /** An index that KnownOres.fromColor can return. */
  type OreIndex = i: int | 0 <= i < 7

  /** OrePalette.get: the ore at an index, or null past the end. */
  function Get(palette: seq<Ore>, index: int): (r: Option<Ore>)
    ensures r.Some? <==> 0 <= index < |palette|
    ensures r.Some? ==> r.value == palette[index]
  {
    if 0 <= index < |palette| then Some(palette[index]) else None
  }

  /** KnownOres holds seven ores, so exactly the indices 0 to 6 name one. */
  lemma KnownOresIndices(index: int)
    requires index >= 0
    ensures Get(KnownOres, index).Some? <==> index < 7
  {
  }
}
