/** Worked cases of the derived view, on two and three concrete tasks. */
module ListViewExamples {

  import opened Wrappers
  import opened Text
  import opened Tasks
  import opened ListView

  const Someone := Assignee("u1", "Ani", "ani@example.com")

  function TaskWith(id: string, title: string, priority: string): Task
  {
    Task(id, title, "", "Todo", "2025-01-01", priority, Someone)
  }

  const WriteSpec := TaskWith("a", "Write spec", "High")
  const BuyMilk := TaskWith("b", "Buy milk", "Low")

  /** Sorting by title, ascending and then descending. */
  lemma SortByTitle()
    ensures FilteredPosts(Some([WriteSpec, BuyMilk]), "", Title, Asc) == [BuyMilk, WriteSpec]
    ensures FilteredPosts(Some([WriteSpec, BuyMilk]), "", Title, Desc) == [WriteSpec, BuyMilk]
  {
    FilterEmptyTerm([WriteSpec, BuyMilk]);
    assert Less(BuyMilk.title, WriteSpec.title);
    assert [WriteSpec, BuyMilk][1..] == [BuyMilk];
  }

  lemma MilkMatches()
    ensures Matches(BuyMilk, "milk") && !Matches(WriteSpec, "milk")
  {
    var term := ToLower("milk");
    assert |term| == 4 && term[0] == 'm' && term[1] == 'i' && term[2] == 'l' && term[3] == 'k';
    assert term == "milk";
    var lowered := ToLower(BuyMilk.title);
    assert lowered[4] == 'm' && lowered[5] == 'i' && lowered[6] == 'l' && lowered[7] == 'k';
    assert lowered[4..8] == "milk";
    assert OccursAt("milk", lowered, 4);
    var other := ToLower(WriteSpec.title);
    assert forall j :: 0 <= j < |other| ==> other[j] != 'm';
    forall i | 0 <= i && i + 4 <= |other|
      ensures !OccursAt("milk", other, i)
    {
      assert other[i..i + 4][0] == other[i];
    }
  }

  /** Searching "milk" keeps one task, on one page. */
  lemma SearchMilk()
    ensures Filter([WriteSpec, BuyMilk], "milk") == [BuyMilk]
    ensures TotalPages(|Filter([WriteSpec, BuyMilk], "milk")|, 10) == 1
  {
    MilkMatches();
    assert [WriteSpec, BuyMilk][1..] == [BuyMilk];
    assert Filter([BuyMilk], "milk") == [BuyMilk] + Filter([], "milk");
  }

  const Low := TaskWith("l", "x", "Low")
  const Medium := TaskWith("m", "y", "Medium")
  const High := TaskWith("h", "z", "High")

  lemma SortMediumHigh()
    ensures Sort(Asc, Priority, [Medium, High]) == [High, Medium]
  {
    assert Less("High", "Medium");
    assert [Medium, High][1..] == [High];
    assert Sort(Asc, Priority, [High]) == [High];
  }

  lemma InsertLow()
    ensures Insert(Asc, Priority, Low, [High, Medium]) == [High, Low, Medium]
  {
    assert Less("High", "Low") && !Less("Medium", "Low");
    assert [High, Medium][1..] == [Medium];
    assert Insert(Asc, Priority, Low, [Medium]) == [Low, Medium];
  }

  /** Priorities are strings, so ascending order is High, Low, Medium. */
  lemma SortByPriorityIsAlphabetic()
    ensures Sort(Asc, Priority, [Low, Medium, High]) == [High, Low, Medium]
  {
    assert [Low, Medium, High][1..] == [Medium, High];
    SortMediumHigh();
    InsertLow();
  }

  /** 25 tasks at 10 per page: three pages, the last holding 5. */
  lemma TwentyFiveTasks(s: seq<Task>)
    requires |s| == 25
    ensures TotalPages(|s|, 10) == 3
    ensures |PageWindow(s, 3, 10)| == 5
  {
  }
}
