/** The resolver table, entry by entry: every spelling, followed by the
    word "and", is resolved to its own entry. Each fact is established by
    evaluating the search on that one spelling. */
module UnitTable {
  import opened Scan
  import opened UnitSuffix
  import opened Units

  lemma MonthsEntry0()
    ensures Unshadowed(0, 0)
  {
    var s := "monthsand";
    assert s == Spelling(0, 0) + "and";
    assert FirstTag(Families[0].spellings, s, 0) == 0;
    assert FirstFamily(s, 0) == Match(0, 0);
  }

  lemma MonthsEntry1()
    ensures Unshadowed(0, 1)
  {
    var s := "monthand";
    assert s == Spelling(0, 1) + "and";
    assert FirstTag(Families[0].spellings, s, 0) == 1;
    assert FirstFamily(s, 0) == Match(0, 1);
  }

  lemma MonthsEntry2()
    ensures Unshadowed(0, 2)
  {
    var s := "mthsand";
    assert s == Spelling(0, 2) + "and";
    assert FirstTag(Families[0].spellings, s, 0) == 2;
    assert FirstFamily(s, 0) == Match(0, 2);
  }

  lemma MonthsEntry3()
    ensures Unshadowed(0, 3)
  {
    var s := "mthand";
    assert s == Spelling(0, 3) + "and";
    assert FirstTag(Families[0].spellings, s, 0) == 3;
    assert FirstFamily(s, 0) == Match(0, 3);
  }

  lemma MonthsEntry4()
    ensures Unshadowed(0, 4)
  {
    var s := "Mand";
    assert s == Spelling(0, 4) + "and";
    assert FirstTag(Families[0].spellings, s, 0) == 4;
    assert FirstFamily(s, 0) == Match(0, 4);
  }

  lemma DaysEntry0()
    ensures Unshadowed(1, 0)
  {
    var s := "daysand";
    assert s == Spelling(1, 0) + "and";
    assert FirstTag(Families[1].spellings, s, 0) == 0;
    assert FirstFamily(s, 1) == Match(1, 0);
    assert FirstTag(Families[0].spellings, s, 0) == -1;
    assert FirstFamily(s, 0) == Match(1, 0);
  }

  lemma DaysEntry1()
    ensures Unshadowed(1, 1)
  {
    var s := "dayand";
    assert s == Spelling(1, 1) + "and";
    assert FirstTag(Families[1].spellings, s, 0) == 1;
    assert FirstFamily(s, 1) == Match(1, 1);
    assert FirstTag(Families[0].spellings, s, 0) == -1;
    assert FirstFamily(s, 0) == Match(1, 1);
  }

  lemma DaysEntry2()
    ensures Unshadowed(1, 2)
  {
    var s := "dysand";
    assert s == Spelling(1, 2) + "and";
    assert FirstTag(Families[1].spellings, s, 0) == 2;
    assert FirstFamily(s, 1) == Match(1, 2);
    assert FirstTag(Families[0].spellings, s, 0) == -1;
    assert FirstFamily(s, 0) == Match(1, 2);
  }

  lemma DaysEntry3()
    ensures Unshadowed(1, 3)
  {
    var s := "dyand";
    assert s == Spelling(1, 3) + "and";
    assert FirstTag(Families[1].spellings, s, 0) == 3;
    assert FirstFamily(s, 1) == Match(1, 3);
    assert FirstTag(Families[0].spellings, s, 0) == -1;
    assert FirstFamily(s, 0) == Match(1, 3);
  }

  lemma DaysEntry4()
    ensures Unshadowed(1, 4)
  {
    var s := "dand";
    assert s == Spelling(1, 4) + "and";
    assert FirstTag(Families[1].spellings, s, 0) == 4;
    assert FirstFamily(s, 1) == Match(1, 4);
    assert FirstTag(Families[0].spellings, s, 0) == -1;
    assert FirstFamily(s, 0) == Match(1, 4);
  }

  lemma DaysEntry5()
    ensures Unshadowed(1, 5)
  {
    var s := "Dand";
    assert s == Spelling(1, 5) + "and";
    assert FirstTag(Families[1].spellings, s, 0) == 5;
    assert FirstFamily(s, 1) == Match(1, 5);
    assert FirstTag(Families[0].spellings, s, 0) == -1;
    assert FirstFamily(s, 0) == Match(1, 5);
  }

  lemma WeeksEntry0()
    ensures Unshadowed(2, 0)
  {
    var s := "weeksand";
    assert s == Spelling(2, 0) + "and";
    assert FirstTag(Families[2].spellings, s, 0) == 0;
    assert FirstFamily(s, 2) == Match(2, 0);
    assert FirstTag(Families[1].spellings, s, 0) == -1;
    assert FirstFamily(s, 1) == Match(2, 0);
    assert FirstTag(Families[0].spellings, s, 0) == -1;
    assert FirstFamily(s, 0) == Match(2, 0);
  }

  lemma WeeksEntry1()
    ensures Unshadowed(2, 1)
  {
    var s := "weekand";
    assert s == Spelling(2, 1) + "and";
    assert FirstTag(Families[2].spellings, s, 0) == 1;
    assert FirstFamily(s, 2) == Match(2, 1);
    assert FirstTag(Families[1].spellings, s, 0) == -1;
    assert FirstFamily(s, 1) == Match(2, 1);
    assert FirstTag(Families[0].spellings, s, 0) == -1;
    assert FirstFamily(s, 0) == Match(2, 1);
  }

  lemma WeeksEntry2()
    ensures Unshadowed(2, 2)
  {
    var s := "wksand";
    assert s == Spelling(2, 2) + "and";
    assert FirstTag(Families[2].spellings, s, 0) == 2;
    assert FirstFamily(s, 2) == Match(2, 2);
    assert FirstTag(Families[1].spellings, s, 0) == -1;
    assert FirstFamily(s, 1) == Match(2, 2);
    assert FirstTag(Families[0].spellings, s, 0) == -1;
    assert FirstFamily(s, 0) == Match(2, 2);
  }

  lemma WeeksEntry3()
    ensures Unshadowed(2, 3)
  {
    var s := "wkand";
    assert s == Spelling(2, 3) + "and";
    assert FirstTag(Families[2].spellings, s, 0) == 3;
    assert FirstFamily(s, 2) == Match(2, 3);
    assert FirstTag(Families[1].spellings, s, 0) == -1;
    assert FirstFamily(s, 1) == Match(2, 3);
    assert FirstTag(Families[0].spellings, s, 0) == -1;
    assert FirstFamily(s, 0) == Match(2, 3);
  }

  lemma WeeksEntry4()
    ensures Unshadowed(2, 4)
  {
    var s := "wand";
    assert s == Spelling(2, 4) + "and";
    assert FirstTag(Families[2].spellings, s, 0) == 4;
    assert FirstFamily(s, 2) == Match(2, 4);
    assert FirstTag(Families[1].spellings, s, 0) == -1;
    assert FirstFamily(s, 1) == Match(2, 4);
    assert FirstTag(Families[0].spellings, s, 0) == -1;
    assert FirstFamily(s, 0) == Match(2, 4);
  }

  lemma WeeksEntry5()
    ensures Unshadowed(2, 5)
  {
    var s := "Wand";
    assert s == Spelling(2, 5) + "and";
    assert FirstTag(Families[2].spellings, s, 0) == 5;
    assert FirstFamily(s, 2) == Match(2, 5);
    assert FirstTag(Families[1].spellings, s, 0) == -1;
    assert FirstFamily(s, 1) == Match(2, 5);
    assert FirstTag(Families[0].spellings, s, 0) == -1;
    assert FirstFamily(s, 0) == Match(2, 5);
  }

  lemma YearsEntry0()
    ensures Unshadowed(3, 0)
  {
    var s := "yearsand";
    assert s == Spelling(3, 0) + "and";
    assert FirstTag(Families[3].spellings, s, 0) == 0;
    assert FirstFamily(s, 3) == Match(3, 0);
    assert FirstTag(Families[2].spellings, s, 0) == -1;
    assert FirstFamily(s, 2) == Match(3, 0);
    assert FirstTag(Families[1].spellings, s, 0) == -1;
    assert FirstFamily(s, 1) == Match(3, 0);
    assert FirstTag(Families[0].spellings, s, 0) == -1;
    assert FirstFamily(s, 0) == Match(3, 0);
  }

  lemma YearsEntry1()
    ensures Unshadowed(3, 1)
  {
    var s := "yearand";
    assert s == Spelling(3, 1) + "and";
    assert FirstTag(Families[3].spellings, s, 0) == 1;
    assert FirstFamily(s, 3) == Match(3, 1);
    assert FirstTag(Families[2].spellings, s, 0) == -1;
    assert FirstFamily(s, 2) == Match(3, 1);
    assert FirstTag(Families[1].spellings, s, 0) == -1;
    assert FirstFamily(s, 1) == Match(3, 1);
    assert FirstTag(Families[0].spellings, s, 0) == -1;
    assert FirstFamily(s, 0) == Match(3, 1);
  }

  lemma YearsEntry2()
    ensures Unshadowed(3, 2)
  {
    var s := "yrsand";
    assert s == Spelling(3, 2) + "and";
    assert FirstTag(Families[3].spellings, s, 0) == 2;
    assert FirstFamily(s, 3) == Match(3, 2);
    assert FirstTag(Families[2].spellings, s, 0) == -1;
    assert FirstFamily(s, 2) == Match(3, 2);
    assert FirstTag(Families[1].spellings, s, 0) == -1;
    assert FirstFamily(s, 1) == Match(3, 2);
    assert FirstTag(Families[0].spellings, s, 0) == -1;
    assert FirstFamily(s, 0) == Match(3, 2);
  }

  lemma YearsEntry3()
    ensures Unshadowed(3, 3)
  {
    var s := "yrand";
    assert s == Spelling(3, 3) + "and";
    assert FirstTag(Families[3].spellings, s, 0) == 3;
    assert FirstFamily(s, 3) == Match(3, 3);
    assert FirstTag(Families[2].spellings, s, 0) == -1;
    assert FirstFamily(s, 2) == Match(3, 3);
    assert FirstTag(Families[1].spellings, s, 0) == -1;
    assert FirstFamily(s, 1) == Match(3, 3);
    assert FirstTag(Families[0].spellings, s, 0) == -1;
    assert FirstFamily(s, 0) == Match(3, 3);
  }

  lemma YearsEntry4()
    ensures Unshadowed(3, 4)
  {
    var s := "yand";
    assert s == Spelling(3, 4) + "and";
    assert FirstTag(Families[3].spellings, s, 0) == 4;
    assert FirstFamily(s, 3) == Match(3, 4);
    assert FirstTag(Families[2].spellings, s, 0) == -1;
    assert FirstFamily(s, 2) == Match(3, 4);
    assert FirstTag(Families[1].spellings, s, 0) == -1;
    assert FirstFamily(s, 1) == Match(3, 4);
    assert FirstTag(Families[0].spellings, s, 0) == -1;
    assert FirstFamily(s, 0) == Match(3, 4);
  }

  lemma YearsEntry5()
    ensures Unshadowed(3, 5)
  {
    var s := "Yand";
    assert s == Spelling(3, 5) + "and";
    assert FirstTag(Families[3].spellings, s, 0) == 5;
    assert FirstFamily(s, 3) == Match(3, 5);
    assert FirstTag(Families[2].spellings, s, 0) == -1;
    assert FirstFamily(s, 2) == Match(3, 5);
    assert FirstTag(Families[1].spellings, s, 0) == -1;
    assert FirstFamily(s, 1) == Match(3, 5);
    assert FirstTag(Families[0].spellings, s, 0) == -1;
    assert FirstFamily(s, 0) == Match(3, 5);
  }

  lemma NanosEntry0()
    ensures Unshadowed(4, 0)
  {
    var s := "nanosand";
    assert s == Spelling(4, 0) + "and";
    assert FirstTag(Families[4].spellings, s, 0) == 0;
    assert FirstFamily(s, 4) == Match(4, 0);
    assert FirstTag(Families[3].spellings, s, 0) == -1;
    assert FirstFamily(s, 3) == Match(4, 0);
    assert FirstTag(Families[2].spellings, s, 0) == -1;
    assert FirstFamily(s, 2) == Match(4, 0);
    assert FirstTag(Families[1].spellings, s, 0) == -1;
    assert FirstFamily(s, 1) == Match(4, 0);
    assert FirstTag(Families[0].spellings, s, 0) == -1;
    assert FirstFamily(s, 0) == Match(4, 0);
  }

  lemma NanosEntry1()
    ensures Unshadowed(4, 1)
  {
    var s := "nsecand";
    assert s == Spelling(4, 1) + "and";
    assert FirstTag(Families[4].spellings, s, 0) == 1;
    assert FirstFamily(s, 4) == Match(4, 1);
    assert FirstTag(Families[3].spellings, s, 0) == -1;
    assert FirstFamily(s, 3) == Match(4, 1);
    assert FirstTag(Families[2].spellings, s, 0) == -1;
    assert FirstFamily(s, 2) == Match(4, 1);
    assert FirstTag(Families[1].spellings, s, 0) == -1;
    assert FirstFamily(s, 1) == Match(4, 1);
    assert FirstTag(Families[0].spellings, s, 0) == -1;
    assert FirstFamily(s, 0) == Match(4, 1);
  }

  lemma NanosEntry2()
    ensures Unshadowed(4, 2)
  {
    var s := "nsand";
    assert s == Spelling(4, 2) + "and";
    assert FirstTag(Families[4].spellings, s, 0) == 2;
    assert FirstFamily(s, 4) == Match(4, 2);
    assert FirstTag(Families[3].spellings, s, 0) == -1;
    assert FirstFamily(s, 3) == Match(4, 2);
    assert FirstTag(Families[2].spellings, s, 0) == -1;
    assert FirstFamily(s, 2) == Match(4, 2);
    assert FirstTag(Families[1].spellings, s, 0) == -1;
    assert FirstFamily(s, 1) == Match(4, 2);
    assert FirstTag(Families[0].spellings, s, 0) == -1;
    assert FirstFamily(s, 0) == Match(4, 2);
  }

  lemma MicrosEntry0()
    ensures Unshadowed(5, 0)
  {
    var s := "microsand";
    assert s == Spelling(5, 0) + "and";
    assert FirstTag(Families[5].spellings, s, 0) == 0;
    assert FirstFamily(s, 5) == Match(5, 0);
    assert FirstTag(Families[4].spellings, s, 0) == -1;
    assert FirstFamily(s, 4) == Match(5, 0);
    assert FirstTag(Families[3].spellings, s, 0) == -1;
    assert FirstFamily(s, 3) == Match(5, 0);
    assert FirstTag(Families[2].spellings, s, 0) == -1;
    assert FirstFamily(s, 2) == Match(5, 0);
    assert FirstTag(Families[1].spellings, s, 0) == -1;
    assert FirstFamily(s, 1) == Match(5, 0);
    assert FirstTag(Families[0].spellings, s, 0) == -1;
    assert FirstFamily(s, 0) == Match(5, 0);
  }

  lemma MicrosEntry1()
    ensures Unshadowed(5, 1)
  {
    var s := "usecand";
    assert s == Spelling(5, 1) + "and";
    assert FirstTag(Families[5].spellings, s, 0) == 1;
    assert FirstFamily(s, 5) == Match(5, 1);
    assert FirstTag(Families[4].spellings, s, 0) == -1;
    assert FirstFamily(s, 4) == Match(5, 1);
    assert FirstTag(Families[3].spellings, s, 0) == -1;
    assert FirstFamily(s, 3) == Match(5, 1);
    assert FirstTag(Families[2].spellings, s, 0) == -1;
    assert FirstFamily(s, 2) == Match(5, 1);
    assert FirstTag(Families[1].spellings, s, 0) == -1;
    assert FirstFamily(s, 1) == Match(5, 1);
    assert FirstTag(Families[0].spellings, s, 0) == -1;
    assert FirstFamily(s, 0) == Match(5, 1);
  }

  lemma MicrosEntry2()
    ensures Unshadowed(5, 2)
  {
    var s := "usand";
    assert s == Spelling(5, 2) + "and";
    assert FirstTag(Families[5].spellings, s, 0) == 2;
    assert FirstFamily(s, 5) == Match(5, 2);
    assert FirstTag(Families[4].spellings, s, 0) == -1;
    assert FirstFamily(s, 4) == Match(5, 2);
    assert FirstTag(Families[3].spellings, s, 0) == -1;
    assert FirstFamily(s, 3) == Match(5, 2);
    assert FirstTag(Families[2].spellings, s, 0) == -1;
    assert FirstFamily(s, 2) == Match(5, 2);
    assert FirstTag(Families[1].spellings, s, 0) == -1;
    assert FirstFamily(s, 1) == Match(5, 2);
    assert FirstTag(Families[0].spellings, s, 0) == -1;
    assert FirstFamily(s, 0) == Match(5, 2);
  }

  lemma MillisEntry0()
    ensures Unshadowed(6, 0)
  {
    var s := "millisand";
    assert s == Spelling(6, 0) + "and";
    assert FirstTag(Families[6].spellings, s, 0) == 0;
    assert FirstFamily(s, 6) == Match(6, 0);
    assert FirstTag(Families[5].spellings, s, 0) == -1;
    assert FirstFamily(s, 5) == Match(6, 0);
    assert FirstTag(Families[4].spellings, s, 0) == -1;
    assert FirstFamily(s, 4) == Match(6, 0);
    assert FirstTag(Families[3].spellings, s, 0) == -1;
    assert FirstFamily(s, 3) == Match(6, 0);
    assert FirstTag(Families[2].spellings, s, 0) == -1;
    assert FirstFamily(s, 2) == Match(6, 0);
    assert FirstTag(Families[1].spellings, s, 0) == -1;
    assert FirstFamily(s, 1) == Match(6, 0);
    assert FirstTag(Families[0].spellings, s, 0) == -1;
    assert FirstFamily(s, 0) == Match(6, 0);
  }

  lemma MillisEntry1()
    ensures Unshadowed(6, 1)
  {
    var s := "msecand";
    assert s == Spelling(6, 1) + "and";
    assert FirstTag(Families[6].spellings, s, 0) == 1;
    assert FirstFamily(s, 6) == Match(6, 1);
    assert FirstTag(Families[5].spellings, s, 0) == -1;
    assert FirstFamily(s, 5) == Match(6, 1);
    assert FirstTag(Families[4].spellings, s, 0) == -1;
    assert FirstFamily(s, 4) == Match(6, 1);
    assert FirstTag(Families[3].spellings, s, 0) == -1;
    assert FirstFamily(s, 3) == Match(6, 1);
    assert FirstTag(Families[2].spellings, s, 0) == -1;
    assert FirstFamily(s, 2) == Match(6, 1);
    assert FirstTag(Families[1].spellings, s, 0) == -1;
    assert FirstFamily(s, 1) == Match(6, 1);
    assert FirstTag(Families[0].spellings, s, 0) == -1;
    assert FirstFamily(s, 0) == Match(6, 1);
  }

  lemma MillisEntry2()
    ensures Unshadowed(6, 2)
  {
    var s := "msand";
    assert s == Spelling(6, 2) + "and";
    assert FirstTag(Families[6].spellings, s, 0) == 2;
    assert FirstFamily(s, 6) == Match(6, 2);
    assert FirstTag(Families[5].spellings, s, 0) == -1;
    assert FirstFamily(s, 5) == Match(6, 2);
    assert FirstTag(Families[4].spellings, s, 0) == -1;
    assert FirstFamily(s, 4) == Match(6, 2);
    assert FirstTag(Families[3].spellings, s, 0) == -1;
    assert FirstFamily(s, 3) == Match(6, 2);
    assert FirstTag(Families[2].spellings, s, 0) == -1;
    assert FirstFamily(s, 2) == Match(6, 2);
    assert FirstTag(Families[1].spellings, s, 0) == -1;
    assert FirstFamily(s, 1) == Match(6, 2);
    assert FirstTag(Families[0].spellings, s, 0) == -1;
    assert FirstFamily(s, 0) == Match(6, 2);
  }

  lemma SecondsEntry0()
    ensures Unshadowed(7, 0)
  {
    var s := "secondsand";
    assert s == Spelling(7, 0) + "and";
    assert FirstTag(Families[7].spellings, s, 0) == 0;
    assert FirstFamily(s, 7) == Match(7, 0);
    assert FirstTag(Families[6].spellings, s, 0) == -1;
    assert FirstFamily(s, 6) == Match(7, 0);
    assert FirstTag(Families[5].spellings, s, 0) == -1;
    assert FirstFamily(s, 5) == Match(7, 0);
    assert FirstTag(Families[4].spellings, s, 0) == -1;
    assert FirstFamily(s, 4) == Match(7, 0);
    assert FirstTag(Families[3].spellings, s, 0) == -1;
    assert FirstFamily(s, 3) == Match(7, 0);
    assert FirstTag(Families[2].spellings, s, 0) == -1;
    assert FirstFamily(s, 2) == Match(7, 0);
    assert FirstTag(Families[1].spellings, s, 0) == -1;
    assert FirstFamily(s, 1) == Match(7, 0);
    assert FirstTag(Families[0].spellings, s, 0) == -1;
    assert FirstFamily(s, 0) == Match(7, 0);
  }

  lemma SecondsEntry1()
    ensures Unshadowed(7, 1)
  {
    var s := "secondand";
    assert s == Spelling(7, 1) + "and";
    assert FirstTag(Families[7].spellings, s, 0) == 1;
    assert FirstFamily(s, 7) == Match(7, 1);
    assert FirstTag(Families[6].spellings, s, 0) == -1;
    assert FirstFamily(s, 6) == Match(7, 1);
    assert FirstTag(Families[5].spellings, s, 0) == -1;
    assert FirstFamily(s, 5) == Match(7, 1);
    assert FirstTag(Families[4].spellings, s, 0) == -1;
    assert FirstFamily(s, 4) == Match(7, 1);
    assert FirstTag(Families[3].spellings, s, 0) == -1;
    assert FirstFamily(s, 3) == Match(7, 1);
    assert FirstTag(Families[2].spellings, s, 0) == -1;
    assert FirstFamily(s, 2) == Match(7, 1);
    assert FirstTag(Families[1].spellings, s, 0) == -1;
    assert FirstFamily(s, 1) == Match(7, 1);
    assert FirstTag(Families[0].spellings, s, 0) == -1;
    assert FirstFamily(s, 0) == Match(7, 1);
  }

  lemma SecondsEntry2()
    ensures Unshadowed(7, 2)
  {
    var s := "secsand";
    assert s == Spelling(7, 2) + "and";
    assert FirstTag(Families[7].spellings, s, 0) == 2;
    assert FirstFamily(s, 7) == Match(7, 2);
    assert FirstTag(Families[6].spellings, s, 0) == -1;
    assert FirstFamily(s, 6) == Match(7, 2);
    assert FirstTag(Families[5].spellings, s, 0) == -1;
    assert FirstFamily(s, 5) == Match(7, 2);
    assert FirstTag(Families[4].spellings, s, 0) == -1;
    assert FirstFamily(s, 4) == Match(7, 2);
    assert FirstTag(Families[3].spellings, s, 0) == -1;
    assert FirstFamily(s, 3) == Match(7, 2);
    assert FirstTag(Families[2].spellings, s, 0) == -1;
    assert FirstFamily(s, 2) == Match(7, 2);
    assert FirstTag(Families[1].spellings, s, 0) == -1;
    assert FirstFamily(s, 1) == Match(7, 2);
    assert FirstTag(Families[0].spellings, s, 0) == -1;
    assert FirstFamily(s, 0) == Match(7, 2);
  }

  lemma SecondsEntry3()
    ensures Unshadowed(7, 3)
  {
    var s := "secand";
    assert s == Spelling(7, 3) + "and";
    assert FirstTag(Families[7].spellings, s, 0) == 3;
    assert FirstFamily(s, 7) == Match(7, 3);
    assert FirstTag(Families[6].spellings, s, 0) == -1;
    assert FirstFamily(s, 6) == Match(7, 3);
    assert FirstTag(Families[5].spellings, s, 0) == -1;
    assert FirstFamily(s, 5) == Match(7, 3);
    assert FirstTag(Families[4].spellings, s, 0) == -1;
    assert FirstFamily(s, 4) == Match(7, 3);
    assert FirstTag(Families[3].spellings, s, 0) == -1;
    assert FirstFamily(s, 3) == Match(7, 3);
    assert FirstTag(Families[2].spellings, s, 0) == -1;
    assert FirstFamily(s, 2) == Match(7, 3);
    assert FirstTag(Families[1].spellings, s, 0) == -1;
    assert FirstFamily(s, 1) == Match(7, 3);
    assert FirstTag(Families[0].spellings, s, 0) == -1;
    assert FirstFamily(s, 0) == Match(7, 3);
  }

  lemma SecondsEntry4()
    ensures Unshadowed(7, 4)
  {
    var s := "sand";
    assert s == Spelling(7, 4) + "and";
    assert FirstTag(Families[7].spellings, s, 0) == 4;
    assert FirstFamily(s, 7) == Match(7, 4);
    assert FirstTag(Families[6].spellings, s, 0) == -1;
    assert FirstFamily(s, 6) == Match(7, 4);
    assert FirstTag(Families[5].spellings, s, 0) == -1;
    assert FirstFamily(s, 5) == Match(7, 4);
    assert FirstTag(Families[4].spellings, s, 0) == -1;
    assert FirstFamily(s, 4) == Match(7, 4);
    assert FirstTag(Families[3].spellings, s, 0) == -1;
    assert FirstFamily(s, 3) == Match(7, 4);
    assert FirstTag(Families[2].spellings, s, 0) == -1;
    assert FirstFamily(s, 2) == Match(7, 4);
    assert FirstTag(Families[1].spellings, s, 0) == -1;
    assert FirstFamily(s, 1) == Match(7, 4);
    assert FirstTag(Families[0].spellings, s, 0) == -1;
    assert FirstFamily(s, 0) == Match(7, 4);
  }

  lemma MinutesEntry0()
    ensures Unshadowed(8, 0)
  {
    var s := "minutesand";
    assert s == Spelling(8, 0) + "and";
    assert FirstTag(Families[8].spellings, s, 0) == 0;
    assert FirstFamily(s, 8) == Match(8, 0);
    assert FirstTag(Families[7].spellings, s, 0) == -1;
    assert FirstFamily(s, 7) == Match(8, 0);
    assert FirstTag(Families[6].spellings, s, 0) == -1;
    assert FirstFamily(s, 6) == Match(8, 0);
    assert FirstTag(Families[5].spellings, s, 0) == -1;
    assert FirstFamily(s, 5) == Match(8, 0);
    assert FirstTag(Families[4].spellings, s, 0) == -1;
    assert FirstFamily(s, 4) == Match(8, 0);
    assert FirstTag(Families[3].spellings, s, 0) == -1;
    assert FirstFamily(s, 3) == Match(8, 0);
    assert FirstTag(Families[2].spellings, s, 0) == -1;
    assert FirstFamily(s, 2) == Match(8, 0);
    assert FirstTag(Families[1].spellings, s, 0) == -1;
    assert FirstFamily(s, 1) == Match(8, 0);
    assert FirstTag(Families[0].spellings, s, 0) == -1;
    assert FirstFamily(s, 0) == Match(8, 0);
  }

  lemma MinutesEntry1()
    ensures Unshadowed(8, 1)
  {
    var s := "minuteand";
    assert s == Spelling(8, 1) + "and";
    assert FirstTag(Families[8].spellings, s, 0) == 1;
    assert FirstFamily(s, 8) == Match(8, 1);
    assert FirstTag(Families[7].spellings, s, 0) == -1;
    assert FirstFamily(s, 7) == Match(8, 1);
    assert FirstTag(Families[6].spellings, s, 0) == -1;
    assert FirstFamily(s, 6) == Match(8, 1);
    assert FirstTag(Families[5].spellings, s, 0) == -1;
    assert FirstFamily(s, 5) == Match(8, 1);
    assert FirstTag(Families[4].spellings, s, 0) == -1;
    assert FirstFamily(s, 4) == Match(8, 1);
    assert FirstTag(Families[3].spellings, s, 0) == -1;
    assert FirstFamily(s, 3) == Match(8, 1);
    assert FirstTag(Families[2].spellings, s, 0) == -1;
    assert FirstFamily(s, 2) == Match(8, 1);
    assert FirstTag(Families[1].spellings, s, 0) == -1;
    assert FirstFamily(s, 1) == Match(8, 1);
    assert FirstTag(Families[0].spellings, s, 0) == -1;
    assert FirstFamily(s, 0) == Match(8, 1);
  }

  lemma MinutesEntry2()
    ensures Unshadowed(8, 2)
  {
    var s := "minsand";
    assert s == Spelling(8, 2) + "and";
    assert FirstTag(Families[8].spellings, s, 0) == 2;
    assert FirstFamily(s, 8) == Match(8, 2);
    assert FirstTag(Families[7].spellings, s, 0) == -1;
    assert FirstFamily(s, 7) == Match(8, 2);
    assert FirstTag(Families[6].spellings, s, 0) == -1;
    assert FirstFamily(s, 6) == Match(8, 2);
    assert FirstTag(Families[5].spellings, s, 0) == -1;
    assert FirstFamily(s, 5) == Match(8, 2);
    assert FirstTag(Families[4].spellings, s, 0) == -1;
    assert FirstFamily(s, 4) == Match(8, 2);
    assert FirstTag(Families[3].spellings, s, 0) == -1;
    assert FirstFamily(s, 3) == Match(8, 2);
    assert FirstTag(Families[2].spellings, s, 0) == -1;
    assert FirstFamily(s, 2) == Match(8, 2);
    assert FirstTag(Families[1].spellings, s, 0) == -1;
    assert FirstFamily(s, 1) == Match(8, 2);
    assert FirstTag(Families[0].spellings, s, 0) == -1;
    assert FirstFamily(s, 0) == Match(8, 2);
  }

  lemma MinutesEntry3()
    ensures Unshadowed(8, 3)
  {
    var s := "minand";
    assert s == Spelling(8, 3) + "and";
    assert FirstTag(Families[8].spellings, s, 0) == 3;
    assert FirstFamily(s, 8) == Match(8, 3);
    assert FirstTag(Families[7].spellings, s, 0) == -1;
    assert FirstFamily(s, 7) == Match(8, 3);
    assert FirstTag(Families[6].spellings, s, 0) == -1;
    assert FirstFamily(s, 6) == Match(8, 3);
    assert FirstTag(Families[5].spellings, s, 0) == -1;
    assert FirstFamily(s, 5) == Match(8, 3);
    assert FirstTag(Families[4].spellings, s, 0) == -1;
    assert FirstFamily(s, 4) == Match(8, 3);
    assert FirstTag(Families[3].spellings, s, 0) == -1;
    assert FirstFamily(s, 3) == Match(8, 3);
    assert FirstTag(Families[2].spellings, s, 0) == -1;
    assert FirstFamily(s, 2) == Match(8, 3);
    assert FirstTag(Families[1].spellings, s, 0) == -1;
    assert FirstFamily(s, 1) == Match(8, 3);
    assert FirstTag(Families[0].spellings, s, 0) == -1;
    assert FirstFamily(s, 0) == Match(8, 3);
  }

  lemma MinutesEntry4()
    ensures Unshadowed(8, 4)
  {
    var s := "mand";
    assert s == Spelling(8, 4) + "and";
    assert FirstTag(Families[8].spellings, s, 0) == 4;
    assert FirstFamily(s, 8) == Match(8, 4);
    assert FirstTag(Families[7].spellings, s, 0) == -1;
    assert FirstFamily(s, 7) == Match(8, 4);
    assert FirstTag(Families[6].spellings, s, 0) == -1;
    assert FirstFamily(s, 6) == Match(8, 4);
    assert FirstTag(Families[5].spellings, s, 0) == -1;
    assert FirstFamily(s, 5) == Match(8, 4);
    assert FirstTag(Families[4].spellings, s, 0) == -1;
    assert FirstFamily(s, 4) == Match(8, 4);
    assert FirstTag(Families[3].spellings, s, 0) == -1;
    assert FirstFamily(s, 3) == Match(8, 4);
    assert FirstTag(Families[2].spellings, s, 0) == -1;
    assert FirstFamily(s, 2) == Match(8, 4);
    assert FirstTag(Families[1].spellings, s, 0) == -1;
    assert FirstFamily(s, 1) == Match(8, 4);
    assert FirstTag(Families[0].spellings, s, 0) == -1;
    assert FirstFamily(s, 0) == Match(8, 4);
  }

  lemma HoursEntry0()
    ensures Unshadowed(9, 0)
  {
    var s := "hoursand";
    assert s == Spelling(9, 0) + "and";
    assert FirstTag(Families[9].spellings, s, 0) == 0;
    assert FirstFamily(s, 9) == Match(9, 0);
    assert FirstTag(Families[8].spellings, s, 0) == -1;
    assert FirstFamily(s, 8) == Match(9, 0);
    assert FirstTag(Families[7].spellings, s, 0) == -1;
    assert FirstFamily(s, 7) == Match(9, 0);
    assert FirstTag(Families[6].spellings, s, 0) == -1;
    assert FirstFamily(s, 6) == Match(9, 0);
    assert FirstTag(Families[5].spellings, s, 0) == -1;
    assert FirstFamily(s, 5) == Match(9, 0);
    assert FirstTag(Families[4].spellings, s, 0) == -1;
    assert FirstFamily(s, 4) == Match(9, 0);
    assert FirstTag(Families[3].spellings, s, 0) == -1;
    assert FirstFamily(s, 3) == Match(9, 0);
    assert FirstTag(Families[2].spellings, s, 0) == -1;
    assert FirstFamily(s, 2) == Match(9, 0);
    assert FirstTag(Families[1].spellings, s, 0) == -1;
    assert FirstFamily(s, 1) == Match(9, 0);
    assert FirstTag(Families[0].spellings, s, 0) == -1;
    assert FirstFamily(s, 0) == Match(9, 0);
  }

  lemma HoursEntry1()
    ensures Unshadowed(9, 1)
  {
    var s := "hourand";
    assert s == Spelling(9, 1) + "and";
    assert FirstTag(Families[9].spellings, s, 0) == 1;
    assert FirstFamily(s, 9) == Match(9, 1);
    assert FirstTag(Families[8].spellings, s, 0) == -1;
    assert FirstFamily(s, 8) == Match(9, 1);
    assert FirstTag(Families[7].spellings, s, 0) == -1;
    assert FirstFamily(s, 7) == Match(9, 1);
    assert FirstTag(Families[6].spellings, s, 0) == -1;
    assert FirstFamily(s, 6) == Match(9, 1);
    assert FirstTag(Families[5].spellings, s, 0) == -1;
    assert FirstFamily(s, 5) == Match(9, 1);
    assert FirstTag(Families[4].spellings, s, 0) == -1;
    assert FirstFamily(s, 4) == Match(9, 1);
    assert FirstTag(Families[3].spellings, s, 0) == -1;
    assert FirstFamily(s, 3) == Match(9, 1);
    assert FirstTag(Families[2].spellings, s, 0) == -1;
    assert FirstFamily(s, 2) == Match(9, 1);
    assert FirstTag(Families[1].spellings, s, 0) == -1;
    assert FirstFamily(s, 1) == Match(9, 1);
    assert FirstTag(Families[0].spellings, s, 0) == -1;
    assert FirstFamily(s, 0) == Match(9, 1);
  }

  lemma HoursEntry2()
    ensures Unshadowed(9, 2)
  {
    var s := "hrsand";
    assert s == Spelling(9, 2) + "and";
    assert FirstTag(Families[9].spellings, s, 0) == 2;
    assert FirstFamily(s, 9) == Match(9, 2);
    assert FirstTag(Families[8].spellings, s, 0) == -1;
    assert FirstFamily(s, 8) == Match(9, 2);
    assert FirstTag(Families[7].spellings, s, 0) == -1;
    assert FirstFamily(s, 7) == Match(9, 2);
    assert FirstTag(Families[6].spellings, s, 0) == -1;
    assert FirstFamily(s, 6) == Match(9, 2);
    assert FirstTag(Families[5].spellings, s, 0) == -1;
    assert FirstFamily(s, 5) == Match(9, 2);
    assert FirstTag(Families[4].spellings, s, 0) == -1;
    assert FirstFamily(s, 4) == Match(9, 2);
    assert FirstTag(Families[3].spellings, s, 0) == -1;
    assert FirstFamily(s, 3) == Match(9, 2);
    assert FirstTag(Families[2].spellings, s, 0) == -1;
    assert FirstFamily(s, 2) == Match(9, 2);
    assert FirstTag(Families[1].spellings, s, 0) == -1;
    assert FirstFamily(s, 1) == Match(9, 2);
    assert FirstTag(Families[0].spellings, s, 0) == -1;
    assert FirstFamily(s, 0) == Match(9, 2);
  }

  lemma HoursEntry3()
    ensures Unshadowed(9, 3)
  {
    var s := "hrand";
    assert s == Spelling(9, 3) + "and";
    assert FirstTag(Families[9].spellings, s, 0) == 3;
    assert FirstFamily(s, 9) == Match(9, 3);
    assert FirstTag(Families[8].spellings, s, 0) == -1;
    assert FirstFamily(s, 8) == Match(9, 3);
    assert FirstTag(Families[7].spellings, s, 0) == -1;
    assert FirstFamily(s, 7) == Match(9, 3);
    assert FirstTag(Families[6].spellings, s, 0) == -1;
    assert FirstFamily(s, 6) == Match(9, 3);
    assert FirstTag(Families[5].spellings, s, 0) == -1;
    assert FirstFamily(s, 5) == Match(9, 3);
    assert FirstTag(Families[4].spellings, s, 0) == -1;
    assert FirstFamily(s, 4) == Match(9, 3);
    assert FirstTag(Families[3].spellings, s, 0) == -1;
    assert FirstFamily(s, 3) == Match(9, 3);
    assert FirstTag(Families[2].spellings, s, 0) == -1;
    assert FirstFamily(s, 2) == Match(9, 3);
    assert FirstTag(Families[1].spellings, s, 0) == -1;
    assert FirstFamily(s, 1) == Match(9, 3);
    assert FirstTag(Families[0].spellings, s, 0) == -1;
    assert FirstFamily(s, 0) == Match(9, 3);
  }

  lemma HoursEntry4()
    ensures Unshadowed(9, 4)
  {
    var s := "hand";
    assert s == Spelling(9, 4) + "and";
    assert FirstTag(Families[9].spellings, s, 0) == 4;
    assert FirstFamily(s, 9) == Match(9, 4);
    assert FirstTag(Families[8].spellings, s, 0) == -1;
    assert FirstFamily(s, 8) == Match(9, 4);
    assert FirstTag(Families[7].spellings, s, 0) == -1;
    assert FirstFamily(s, 7) == Match(9, 4);
    assert FirstTag(Families[6].spellings, s, 0) == -1;
    assert FirstFamily(s, 6) == Match(9, 4);
    assert FirstTag(Families[5].spellings, s, 0) == -1;
    assert FirstFamily(s, 5) == Match(9, 4);
    assert FirstTag(Families[4].spellings, s, 0) == -1;
    assert FirstFamily(s, 4) == Match(9, 4);
    assert FirstTag(Families[3].spellings, s, 0) == -1;
    assert FirstFamily(s, 3) == Match(9, 4);
    assert FirstTag(Families[2].spellings, s, 0) == -1;
    assert FirstFamily(s, 2) == Match(9, 4);
    assert FirstTag(Families[1].spellings, s, 0) == -1;
    assert FirstFamily(s, 1) == Match(9, 4);
    assert FirstTag(Families[0].spellings, s, 0) == -1;
    assert FirstFamily(s, 0) == Match(9, 4);
  }

  lemma HoursEntry5()
    ensures Unshadowed(9, 5)
  {
    var s := "Hand";
    assert s == Spelling(9, 5) + "and";
    assert FirstTag(Families[9].spellings, s, 0) == 5;
    assert FirstFamily(s, 9) == Match(9, 5);
    assert FirstTag(Families[8].spellings, s, 0) == -1;
    assert FirstFamily(s, 8) == Match(9, 5);
    assert FirstTag(Families[7].spellings, s, 0) == -1;
    assert FirstFamily(s, 7) == Match(9, 5);
    assert FirstTag(Families[6].spellings, s, 0) == -1;
    assert FirstFamily(s, 6) == Match(9, 5);
    assert FirstTag(Families[5].spellings, s, 0) == -1;
    assert FirstFamily(s, 5) == Match(9, 5);
    assert FirstTag(Families[4].spellings, s, 0) == -1;
    assert FirstFamily(s, 4) == Match(9, 5);
    assert FirstTag(Families[3].spellings, s, 0) == -1;
    assert FirstFamily(s, 3) == Match(9, 5);
    assert FirstTag(Families[2].spellings, s, 0) == -1;
    assert FirstFamily(s, 2) == Match(9, 5);
    assert FirstTag(Families[1].spellings, s, 0) == -1;
    assert FirstFamily(s, 1) == Match(9, 5);
    assert FirstTag(Families[0].spellings, s, 0) == -1;
    assert FirstFamily(s, 0) == Match(9, 5);
  }

  /** Every entry of the table is unshadowed. */
  lemma TableUnshadowed(k: nat, j: nat)
    requires ValidEntry(k, j)
    ensures Unshadowed(k, j)
  {
    if k == 0 {
      if j == 0 { MonthsEntry0(); }
      else if j == 1 { MonthsEntry1(); }
      else if j == 2 { MonthsEntry2(); }
      else if j == 3 { MonthsEntry3(); }
      else { MonthsEntry4(); }
    } else if k == 1 {
      if j == 0 { DaysEntry0(); }
      else if j == 1 { DaysEntry1(); }
      else if j == 2 { DaysEntry2(); }
      else if j == 3 { DaysEntry3(); }
      else if j == 4 { DaysEntry4(); }
      else { DaysEntry5(); }
    } else if k == 2 {
      if j == 0 { WeeksEntry0(); }
      else if j == 1 { WeeksEntry1(); }
      else if j == 2 { WeeksEntry2(); }
      else if j == 3 { WeeksEntry3(); }
      else if j == 4 { WeeksEntry4(); }
      else { WeeksEntry5(); }
    } else if k == 3 {
      if j == 0 { YearsEntry0(); }
      else if j == 1 { YearsEntry1(); }
      else if j == 2 { YearsEntry2(); }
      else if j == 3 { YearsEntry3(); }
      else if j == 4 { YearsEntry4(); }
      else { YearsEntry5(); }
    } else if k == 4 {
      if j == 0 { NanosEntry0(); }
      else if j == 1 { NanosEntry1(); }
      else { NanosEntry2(); }
    } else if k == 5 {
      if j == 0 { MicrosEntry0(); }
      else if j == 1 { MicrosEntry1(); }
      else { MicrosEntry2(); }
    } else if k == 6 {
      if j == 0 { MillisEntry0(); }
      else if j == 1 { MillisEntry1(); }
      else { MillisEntry2(); }
    } else if k == 7 {
      if j == 0 { SecondsEntry0(); }
      else if j == 1 { SecondsEntry1(); }
      else if j == 2 { SecondsEntry2(); }
      else if j == 3 { SecondsEntry3(); }
      else { SecondsEntry4(); }
    } else if k == 8 {
      if j == 0 { MinutesEntry0(); }
      else if j == 1 { MinutesEntry1(); }
      else if j == 2 { MinutesEntry2(); }
      else if j == 3 { MinutesEntry3(); }
      else { MinutesEntry4(); }
    } else {
      if j == 0 { HoursEntry0(); }
      else if j == 1 { HoursEntry1(); }
      else if j == 2 { HoursEntry2(); }
      else if j == 3 { HoursEntry3(); }
      else if j == 4 { HoursEntry4(); }
      else { HoursEntry5(); }
    }
  }

  lemma MonthsAreUnitText(j: nat)
    requires ValidEntry(0, j)
    ensures IsUnitText(Spelling(0, j))
  {
    if j == 0 {
      assert Spelling(0, 0) == "months";
    } else if j == 1 {
      assert Spelling(0, 1) == "month";
    } else if j == 2 {
      assert Spelling(0, 2) == "mths";
    } else if j == 3 {
      assert Spelling(0, 3) == "mth";
    } else {
      assert Spelling(0, 4) == "M";
    }
  }

  lemma DaysAreUnitText(j: nat)
    requires ValidEntry(1, j)
    ensures IsUnitText(Spelling(1, j))
  {
    if j == 0 {
      assert Spelling(1, 0) == "days";
    } else if j == 1 {
      assert Spelling(1, 1) == "day";
    } else if j == 2 {
      assert Spelling(1, 2) == "dys";
    } else if j == 3 {
      assert Spelling(1, 3) == "dy";
    } else if j == 4 {
      assert Spelling(1, 4) == "d";
    } else {
      assert Spelling(1, 5) == "D";
    }
  }

  lemma WeeksAreUnitText(j: nat)
    requires ValidEntry(2, j)
    ensures IsUnitText(Spelling(2, j))
  {
    if j == 0 {
      assert Spelling(2, 0) == "weeks";
    } else if j == 1 {
      assert Spelling(2, 1) == "week";
    } else if j == 2 {
      assert Spelling(2, 2) == "wks";
    } else if j == 3 {
      assert Spelling(2, 3) == "wk";
    } else if j == 4 {
      assert Spelling(2, 4) == "w";
    } else {
      assert Spelling(2, 5) == "W";
    }
  }

  lemma YearsAreUnitText(j: nat)
    requires ValidEntry(3, j)
    ensures IsUnitText(Spelling(3, j))
  {
    if j == 0 {
      assert Spelling(3, 0) == "years";
    } else if j == 1 {
      assert Spelling(3, 1) == "year";
    } else if j == 2 {
      assert Spelling(3, 2) == "yrs";
    } else if j == 3 {
      assert Spelling(3, 3) == "yr";
    } else if j == 4 {
      assert Spelling(3, 4) == "y";
    } else {
      assert Spelling(3, 5) == "Y";
    }
  }

  lemma NanosAreUnitText(j: nat)
    requires ValidEntry(4, j)
    ensures IsUnitText(Spelling(4, j))
  {
    if j == 0 {
      assert Spelling(4, 0) == "nanos";
    } else if j == 1 {
      assert Spelling(4, 1) == "nsec";
    } else {
      assert Spelling(4, 2) == "ns";
    }
  }

  lemma MicrosAreUnitText(j: nat)
    requires ValidEntry(5, j)
    ensures IsUnitText(Spelling(5, j))
  {
    if j == 0 {
      assert Spelling(5, 0) == "micros";
    } else if j == 1 {
      assert Spelling(5, 1) == "usec";
    } else {
      assert Spelling(5, 2) == "us";
    }
  }

  lemma MillisAreUnitText(j: nat)
    requires ValidEntry(6, j)
    ensures IsUnitText(Spelling(6, j))
  {
    if j == 0 {
      assert Spelling(6, 0) == "millis";
    } else if j == 1 {
      assert Spelling(6, 1) == "msec";
    } else {
      assert Spelling(6, 2) == "ms";
    }
  }

  lemma SecondsAreUnitText(j: nat)
    requires ValidEntry(7, j)
    ensures IsUnitText(Spelling(7, j))
  {
    if j == 0 {
      assert Spelling(7, 0) == "seconds";
    } else if j == 1 {
      assert Spelling(7, 1) == "second";
    } else if j == 2 {
      assert Spelling(7, 2) == "secs";
    } else if j == 3 {
      assert Spelling(7, 3) == "sec";
    } else {
      assert Spelling(7, 4) == "s";
    }
  }

  lemma MinutesAreUnitText(j: nat)
    requires ValidEntry(8, j)
    ensures IsUnitText(Spelling(8, j))
  {
    if j == 0 {
      assert Spelling(8, 0) == "minutes";
    } else if j == 1 {
      assert Spelling(8, 1) == "minute";
    } else if j == 2 {
      assert Spelling(8, 2) == "mins";
    } else if j == 3 {
      assert Spelling(8, 3) == "min";
    } else {
      assert Spelling(8, 4) == "m";
    }
  }

  lemma HoursAreUnitText(j: nat)
    requires ValidEntry(9, j)
    ensures IsUnitText(Spelling(9, j))
  {
    if j == 0 {
      assert Spelling(9, 0) == "hours";
    } else if j == 1 {
      assert Spelling(9, 1) == "hour";
    } else if j == 2 {
      assert Spelling(9, 2) == "hrs";
    } else if j == 3 {
      assert Spelling(9, 3) == "hr";
    } else if j == 4 {
      assert Spelling(9, 4) == "h";
    } else {
      assert Spelling(9, 5) == "H";
    }
  }
  /** Every spelling in the table is unit text. */
  lemma SpellingIsUnitText(k: nat, j: nat)
    requires ValidEntry(k, j)
    ensures IsUnitText(Spelling(k, j))
  {
    if k == 0 {
      MonthsAreUnitText(j);
    } else if k == 1 {
      DaysAreUnitText(j);
    } else if k == 2 {
      WeeksAreUnitText(j);
    } else if k == 3 {
      YearsAreUnitText(j);
    } else if k == 4 {
      NanosAreUnitText(j);
    } else if k == 5 {
      MicrosAreUnitText(j);
    } else if k == 6 {
      MillisAreUnitText(j);
    } else if k == 7 {
      SecondsAreUnitText(j);
    } else if k == 8 {
      MinutesAreUnitText(j);
    } else {
      HoursAreUnitText(j);
    }
  }

  /** A spelling followed by anything that ends a unit resolves to its own
      family's unit and leaves that text unconsumed. */
  lemma ResolveSpelling(k: nat, j: nat, u: string)
    requires ValidEntry(k, j) && EndsUnit(u)
    ensures ResolveUnit(Spelling(k, j) + u) == Done(u, Families[k].unit)
  {
    var sp := Spelling(k, j);
    var s := sp + u;
    var t := sp + "and";
    TableUnshadowed(k, j);
    FirstFamilyIsFirst(t, 0);
    StartsWithIsPrefix(s, sp);
    assert s[..|sp|] == sp;
    forall k2: nat, j2: nat | ValidEntry(k2, j2) && Precedes(k2, j2, k, j)
      ensures !StartsWith(s, Spelling(k2, j2))
    {
      if StartsWith(s, Spelling(k2, j2)) {
        ShadowCarries(k, j, k2, j2, u);
      }
    }
    FirstFamilyFinds(s, k, j);
    assert s[|sp|..] == u;
  }

  /** A spelling on its own resolves to its family's unit and consumes all of it. */
  lemma Alone(k: nat, j: nat)
    requires ValidEntry(k, j)
    ensures ResolveUnit(Spelling(k, j)) == Done([], Families[k].unit)
  {
    ResolveSpelling(k, j, []);
    assert Spelling(k, j) + [] == Spelling(k, j);
  }

  /** Case matters: "M" is a month, "m" a minute. */
  lemma MonthsAndMinutesByCase()
    ensures ResolveUnit("M") == Done([], Months)
    ensures ResolveUnit("m") == Done([], Minutes)
  {
    assert Spelling(0, 4) == "M";
    Alone(0, 4);
    assert Spelling(8, 4) == "m";
    Alone(8, 4);
  }

  /** Milliseconds are tried before minutes, yet "mins" and "min" are not
      taken for milliseconds, and "ms" is not taken for minutes. */
  lemma MillisBeforeMinutes()
    ensures ResolveUnit("ms") == Done([], Millis)
    ensures ResolveUnit("mins") == Done([], Minutes)
    ensures ResolveUnit("min") == Done([], Minutes)
  {
    assert Spelling(6, 2) == "ms";
    Alone(6, 2);
    assert Spelling(8, 2) == "mins";
    Alone(8, 2);
    assert Spelling(8, 3) == "min";
    Alone(8, 3);
  }

  /** A longer spelling is tried before its prefixes: "seconds" does not
      stop at "s", nor "hours" at "h". */
  lemma LongestSpellingFirst()
    ensures ResolveUnit("seconds") == Done([], Seconds)
    ensures ResolveUnit("hours") == Done([], Hours)
  {
    assert Spelling(7, 0) == "seconds";
    Alone(7, 0);
    assert Spelling(9, 0) == "hours";
    Alone(9, 0);
  }

  /** The letters that may follow a spelling before a unit ends are a prefix
      of the word "and". */
  lemma LetterRunInAnd(u: string, n: nat)
    requires EndsUnit(u) && n <= |u|
    requires forall i | 0 <= i < n :: IsAsciiLetter(u[i])
    ensures n <= 3 && u[..n] == "and"[..n]
  {
    if n > 0 {
      assert IsAsciiLetter(u[0]);
      assert n <= 3;
      assert u[..n] == u[..3][..n];
    }
  }

  /** An entry that shadows `(k, j)` before text that ends a unit already
      shadows it before "and". */
  lemma ShadowCarries(k: nat, j: nat, k2: nat, j2: nat, u: string)
    requires ValidEntry(k, j) && ValidEntry(k2, j2) && EndsUnit(u)
    requires StartsWith(Spelling(k, j) + u, Spelling(k2, j2))
    ensures StartsWith(Spelling(k, j) + "and", Spelling(k2, j2))
  {
    var sp, sp2 := Spelling(k, j), Spelling(k2, j2);
    var s, t := sp + u, sp + "and";
    StartsWithIsPrefix(s, sp2);
    StartsWithIsPrefix(t, sp2);
    if |sp2| <= |sp| {
      assert t[..|sp2|] == sp[..|sp2|] == s[..|sp2|];
    } else {
      var n := |sp2| - |sp|;
      SpellingIsUnitText(k2, j2);
      forall i | 0 <= i < n
        ensures IsAsciiLetter(u[i])
      {
        LettersFromAll(sp2, 0, |sp| + i);
        assert u[i] == s[|sp| + i] == sp2[|sp| + i];
      }
      LetterRunInAnd(u, n);
      assert s[..|sp2|] == sp + u[..n];
      assert t[..|sp2|] == sp + "and"[..n];
    }
  }
}
