/** The chromosome-size tables of the two reference builds the pipeline
    supports, in the order the source lists them. */
module Assemblies {
  datatype Contig = Contig(name: string, size: nat)

  /** hg19 sizes, in the order the source lists them (20 before 19, 22 before 21). */
  const Hg19: seq<Contig> := [
    Contig("1", 249250621), Contig("2", 243199373), Contig("3", 198022430),
    Contig("4", 191154276), Contig("5", 180915260), Contig("6", 171115067),
    Contig("7", 159138663), Contig("8", 146364022), Contig("9", 141213431),
    Contig("10", 135534747), Contig("11", 135006516), Contig("12", 133851895),
    Contig("13", 115169878), Contig("14", 107349540), Contig("15", 102531392),
    Contig("16", 90354753), Contig("17", 81195210), Contig("18", 78077248),
    Contig("20", 63025520), Contig("19", 59128983), Contig("22", 51304566),
    Contig("21", 48129895), Contig("X", 155270560), Contig("Y", 59373566)
  ]

  /** hg38 sizes, in the order the source lists them (sorted by size, so X
      comes right after 7). */
  const Hg38: seq<Contig> := [
    Contig("1", 248956422), Contig("2", 242193529), Contig("3", 198295559),
    Contig("4", 190214555), Contig("5", 181538259), Contig("6", 170805979),
    Contig("7", 159345973), Contig("X", 156040895), Contig("8", 145138636),
    Contig("9", 138394717), Contig("11", 135086622), Contig("10", 133797422),
    Contig("12", 133275309), Contig("13", 114364328), Contig("14", 107043718),
    Contig("15", 101991189), Contig("16", 90338345), Contig("17", 83257441),
    Contig("18", 80373285), Contig("20", 64444167), Contig("19", 58617616),
    Contig("Y", 57227415), Contig("22", 50818468), Contig("21", 46709983)
  ]

  /** The row of Hg19 listing a chromosome name, or -1. */
  function Hg19Row(name: string): int {
    match name
    case "1" => 0
    case "2" => 1
    case "3" => 2
    case "4" => 3
    case "5" => 4
    case "6" => 5
    case "7" => 6
    case "8" => 7
    case "9" => 8
    case "10" => 9
    case "11" => 10
    case "12" => 11
    case "13" => 12
    case "14" => 13
    case "15" => 14
    case "16" => 15
    case "17" => 16
    case "18" => 17
    case "20" => 18
    case "19" => 19
    case "22" => 20
    case "21" => 21
    case "X" => 22
    case "Y" => 23
    case _ => -1
  }

  lemma Hg19Rows0()
    ensures forall i :: 0 <= i < 3 ==> Hg19Row(Hg19[i].name) == i
  {
    assert Hg19Row(Hg19[0].name) == 0;
    assert Hg19Row(Hg19[1].name) == 1;
    assert Hg19Row(Hg19[2].name) == 2;
  }

  lemma Hg19Rows3()
    ensures forall i :: 3 <= i < 6 ==> Hg19Row(Hg19[i].name) == i
  {
    assert Hg19Row(Hg19[3].name) == 3;
    assert Hg19Row(Hg19[4].name) == 4;
    assert Hg19Row(Hg19[5].name) == 5;
  }

  lemma Hg19Rows6()
    ensures forall i :: 6 <= i < 9 ==> Hg19Row(Hg19[i].name) == i
  {
    assert Hg19Row(Hg19[6].name) == 6;
    assert Hg19Row(Hg19[7].name) == 7;
    assert Hg19Row(Hg19[8].name) == 8;
  }

  lemma Hg19Rows9()
    ensures forall i :: 9 <= i < 12 ==> Hg19Row(Hg19[i].name) == i
  {
    assert Hg19Row(Hg19[9].name) == 9;
    assert Hg19Row(Hg19[10].name) == 10;
    assert Hg19Row(Hg19[11].name) == 11;
  }

  lemma Hg19Rows12()
    ensures forall i :: 12 <= i < 15 ==> Hg19Row(Hg19[i].name) == i
  {
    assert Hg19Row(Hg19[12].name) == 12;
    assert Hg19Row(Hg19[13].name) == 13;
    assert Hg19Row(Hg19[14].name) == 14;
  }

  lemma Hg19Rows15()
    ensures forall i :: 15 <= i < 18 ==> Hg19Row(Hg19[i].name) == i
  {
    assert Hg19Row(Hg19[15].name) == 15;
    assert Hg19Row(Hg19[16].name) == 16;
    assert Hg19Row(Hg19[17].name) == 17;
  }

  lemma Hg19Rows18()
    ensures forall i :: 18 <= i < 21 ==> Hg19Row(Hg19[i].name) == i
  {
    assert Hg19Row(Hg19[18].name) == 18;
    assert Hg19Row(Hg19[19].name) == 19;
    assert Hg19Row(Hg19[20].name) == 20;
  }

  lemma Hg19Rows21()
    ensures forall i :: 21 <= i < 24 ==> Hg19Row(Hg19[i].name) == i
  {
    assert Hg19Row(Hg19[21].name) == 21;
    assert Hg19Row(Hg19[22].name) == 22;
    assert Hg19Row(Hg19[23].name) == 23;
  }

  lemma Hg19DuplicateFree()
    ensures forall i, j :: 0 <= i < j < |Hg19| ==> Hg19[i].name != Hg19[j].name
  {
    Hg19Rows0(); Hg19Rows3(); Hg19Rows6(); Hg19Rows9(); Hg19Rows12(); Hg19Rows15(); Hg19Rows18(); Hg19Rows21();
    forall i, j | 0 <= i < j < |Hg19| ensures Hg19[i].name != Hg19[j].name {
      assert Hg19Row(Hg19[i].name) == i && Hg19Row(Hg19[j].name) == j;
    }
  }

  /** The row of Hg38 listing a chromosome name, or -1. */
  function Hg38Row(name: string): int {
    match name
    case "1" => 0
    case "2" => 1
    case "3" => 2
    case "4" => 3
    case "5" => 4
    case "6" => 5
    case "7" => 6
    case "X" => 7
    case "8" => 8
    case "9" => 9
    case "11" => 10
    case "10" => 11
    case "12" => 12
    case "13" => 13
    case "14" => 14
    case "15" => 15
    case "16" => 16
    case "17" => 17
    case "18" => 18
    case "20" => 19
    case "19" => 20
    case "Y" => 21
    case "22" => 22
    case "21" => 23
    case _ => -1
  }

  lemma Hg38Rows0()
    ensures forall i :: 0 <= i < 3 ==> Hg38Row(Hg38[i].name) == i
  {
    assert Hg38Row(Hg38[0].name) == 0;
    assert Hg38Row(Hg38[1].name) == 1;
    assert Hg38Row(Hg38[2].name) == 2;
  }

  lemma Hg38Rows3()
    ensures forall i :: 3 <= i < 6 ==> Hg38Row(Hg38[i].name) == i
  {
    assert Hg38Row(Hg38[3].name) == 3;
    assert Hg38Row(Hg38[4].name) == 4;
    assert Hg38Row(Hg38[5].name) == 5;
  }

  lemma Hg38Rows6()
    ensures forall i :: 6 <= i < 9 ==> Hg38Row(Hg38[i].name) == i
  {
    assert Hg38Row(Hg38[6].name) == 6;
    assert Hg38Row(Hg38[7].name) == 7;
    assert Hg38Row(Hg38[8].name) == 8;
  }

  lemma Hg38Rows9()
    ensures forall i :: 9 <= i < 12 ==> Hg38Row(Hg38[i].name) == i
  {
    assert Hg38Row(Hg38[9].name) == 9;
    assert Hg38Row(Hg38[10].name) == 10;
    assert Hg38Row(Hg38[11].name) == 11;
  }

  lemma Hg38Rows12()
    ensures forall i :: 12 <= i < 15 ==> Hg38Row(Hg38[i].name) == i
  {
    assert Hg38Row(Hg38[12].name) == 12;
    assert Hg38Row(Hg38[13].name) == 13;
    assert Hg38Row(Hg38[14].name) == 14;
  }

  lemma Hg38Rows15()
    ensures forall i :: 15 <= i < 18 ==> Hg38Row(Hg38[i].name) == i
  {
    assert Hg38Row(Hg38[15].name) == 15;
    assert Hg38Row(Hg38[16].name) == 16;
    assert Hg38Row(Hg38[17].name) == 17;
  }

  lemma Hg38Rows18()
    ensures forall i :: 18 <= i < 21 ==> Hg38Row(Hg38[i].name) == i
  {
    assert Hg38Row(Hg38[18].name) == 18;
    assert Hg38Row(Hg38[19].name) == 19;
    assert Hg38Row(Hg38[20].name) == 20;
  }

  lemma Hg38Rows21()
    ensures forall i :: 21 <= i < 24 ==> Hg38Row(Hg38[i].name) == i
  {
    assert Hg38Row(Hg38[21].name) == 21;
    assert Hg38Row(Hg38[22].name) == 22;
    assert Hg38Row(Hg38[23].name) == 23;
  }

  lemma Hg38DuplicateFree()
    ensures forall i, j :: 0 <= i < j < |Hg38| ==> Hg38[i].name != Hg38[j].name
  {
    Hg38Rows0(); Hg38Rows3(); Hg38Rows6(); Hg38Rows9(); Hg38Rows12(); Hg38Rows15(); Hg38Rows18(); Hg38Rows21();
    forall i, j | 0 <= i < j < |Hg38| ensures Hg38[i].name != Hg38[j].name {
      assert Hg38Row(Hg38[i].name) == i && Hg38Row(Hg38[j].name) == j;
    }
  }
}
