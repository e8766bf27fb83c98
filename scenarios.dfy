/**
 * Two small panels worked through the measure engine: a balanced three-asset
 * panel whose returns and weights can be read off by hand, and an unbalanced
 * one showing that the weights are not normalised.
 */
module Scenarios {
  import opened Panel
  import opened Measures

  /** Three assets observed on days 1 and 2 with constant volumes. */
  function Balanced(): seq<Row>
  {
    [Row("A", 1, 10.0, 100.0), Row("A", 2, 12.0, 100.0),
     Row("B", 1, 20.0, 50.0), Row("B", 2, 19.0, 50.0),
     Row("C", 1, 5.0, 200.0), Row("C", 2, 5.5, 200.0)]
  }

  /** Asset A trades on days 1 and 2, asset B only on day 1. */
  function Unbalanced(): seq<Row>
  {
    [Row("A", 1, 1.0, 1.0), Row("A", 2, 1.0, 1.0), Row("B", 1, 1.0, 1.0)]
  }

  lemma BalancedNames()
    ensures Names(Balanced()) == {"A", "B", "C"}
  {
    var d := Balanced();
    assert d[0].name == "A" && d[2].name == "B" && d[4].name == "C";
  }

  /** Returns 0.2, -0.05 and 0.1. */
  lemma BalancedReturns()
    ensures FirstPricesNonzero(Balanced())
    ensures Returns(Balanced()).Keys == {"A", "B", "C"}
    ensures Returns(Balanced())["A"] == 0.2
    ensures Returns(Balanced())["B"] == -0.05
    ensures Returns(Balanced())["C"] == 0.1
  {
    var d := Balanced();
    BalancedNames();
    assert d[1].name == "A" && d[3].name == "B" && d[5].name == "C";
    assert "A" != "B" && "A" != "C" && "B" != "C";
    assert FirstIndex(d, "A") == 0 && LastIndex(d, "A") == 1;
    assert FirstIndex(d, "B") == 2 && LastIndex(d, "B") == 3;
    assert FirstIndex(d, "C") == 4 && LastIndex(d, "C") == 5;
  }

  /** Every day trades a total volume of 350. */
  lemma BalancedShares()
    ensures DailyVolumesNonzero(Balanced())
    ensures Shares(Balanced()) == [100.0 / 350.0, 100.0 / 350.0, 50.0 / 350.0, 50.0 / 350.0, 200.0 / 350.0, 200.0 / 350.0]
  {
    var d := Balanced();
    assert VolumeOn(d, 1) == 350.0 && VolumeOn(d, 2) == 350.0;
  }

  /** Each weight is the asset's constant share of the daily volume 350. */
  lemma BalancedWeights()
    ensures DailyVolumesNonzero(Balanced())
    ensures Weights(Balanced()).Keys == {"A", "B", "C"}
    ensures Weights(Balanced())["A"] == 100.0 / 350.0
    ensures Weights(Balanced())["B"] == 50.0 / 350.0
    ensures Weights(Balanced())["C"] == 200.0 / 350.0
  {
    var d := Balanced();
    BalancedNames();
    BalancedShares();
    BalancedShareOf("A", 100.0 / 350.0);
    BalancedShareOf("B", 50.0 / 350.0);
    BalancedShareOf("C", 200.0 / 350.0);
    ConstantShareWeight(d, "A", 100.0 / 350.0);
    ConstantShareWeight(d, "B", 50.0 / 350.0);
    ConstantShareWeight(d, "C", 200.0 / 350.0);
  }

  /** Asset `n`'s daily share is `c` on both days. */
  lemma BalancedShareOf(n: string, c: real)
    requires (n, c) in {("A", 100.0 / 350.0), ("B", 50.0 / 350.0), ("C", 200.0 / 350.0)}
    ensures DailyVolumesNonzero(Balanced())
    ensures forall i :: 0 <= i < |Balanced()| && Balanced()[i].name == n ==> Shares(Balanced())[i] == c
  {
    var d := Balanced();
    BalancedShares();
    assert "A" != "B" && "A" != "C" && "B" != "C";
    forall i | 0 <= i < |d| && d[i].name == n ensures Shares(d)[i] == c {
      assert i == 0 || i == 1 || i == 2 || i == 3 || i == 4 || i == 5;
    }
  }

  /** The weights of an unbalanced panel sum to 5/4, not 1: asset A's two
      daily shares are 1/2 and 1, asset B's only share is 1/2. */
  lemma WeightsNeedNotSumToOne()
    ensures DailyVolumesNonzero(Unbalanced())
    ensures Names(Unbalanced()) == {"A", "B"}
    ensures Weights(Unbalanced())["A"] + Weights(Unbalanced())["B"] == 1.25
  {
    var d := Unbalanced();
    assert d[0].name == "A" && d[2].name == "B";
    assert VolumeOn(d, 1) == 2.0 && VolumeOn(d, 2) == 1.0;
    var s := Shares(d);
    assert s == [0.5, 1.0, 0.5];
    assert CountForAsset(d, "A") == 2 && CountForAsset(d, "B") == 1;
    assert "A" != "B";
    assert d[1..][1..] == d[2..] && s[1..][1..] == s[2..];
    assert d[2..][1..] == [] && s[2..][1..] == [];
    SumForAssetCons(d, s, "A");
    SumForAssetCons(d[1..], s[1..], "A");
    SumForAssetCons(d[2..], s[2..], "A");
    SumForAssetCons(d, s, "B");
    SumForAssetCons(d[1..], s[1..], "B");
    SumForAssetCons(d[2..], s[2..], "B");
    assert SumForAsset(d, s, "A") == 1.5 && SumForAsset(d, s, "B") == 0.5;
  }
}
