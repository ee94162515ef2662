// The course listing of src/components/Code-component-3-61.tsx: the static
// course list, the search/category/level filter, the category and level
// selectors, the level badge classes and the totals under the list.

module CourseCatalog {
  import opened Text
  import opened Seqs

  /** A course as the listing uses it. The rating is kept in tenths. */
  datatype Course = Course(
    id: string,
    title: string,
    instructor: string,
    description: string,
    duration: string,
    students: nat,
    ratingTenths: nat,
    level: string,
    category: string,
    price: nat,
    lessons: nat)

  /** The three filter values the component keeps in state. */
  datatype Filters = Filters(searchTerm: string, selectedCategory: string, selectedLevel: string)

  /** The wildcard value of both selectors. */
  const All: string := "all"

  /** The level selector's entries. */
  const Levels: seq<string> := [All, "Beginner", "Intermediate", "Advanced"]

  // ---------------------------------------------------------------------------
  // Subsequences

  /** `xs` is `ys` with some elements dropped and the rest kept in order. */
  predicate SubsequenceOf<T(==)>(xs: seq<T>, ys: seq<T>)
    decreases |ys|
  {
    if ys == [] then xs == []
    else (xs != [] && xs[0] == ys[0] && SubsequenceOf(xs[1..], ys[1..])) || SubsequenceOf(xs, ys[1..])
  }

  /** Every element of a subsequence comes from the original. */
  lemma {:induction false} SubsequenceMembers<T>(xs: seq<T>, ys: seq<T>)
    requires SubsequenceOf(xs, ys)
    ensures forall x :: x in xs ==> x in ys
    decreases |ys|
  {
    if ys != [] {
      if xs != [] && xs[0] == ys[0] && SubsequenceOf(xs[1..], ys[1..]) {
        SubsequenceMembers(xs[1..], ys[1..]);
        assert xs == [xs[0]] + xs[1..];
      } else {
        SubsequenceMembers(xs, ys[1..]);
      }
    }
  }

  /** A subsequence of `ys` extended by one more element of the original stays one. */
  lemma {:induction false} SubsequenceSnoc<T>(xs: seq<T>, ys: seq<T>, y: T, keep: bool)
    requires SubsequenceOf(xs, ys)
    ensures SubsequenceOf(if keep then xs + [y] else xs, ys + [y])
    decreases |ys|
  {
    var zs := ys + [y];
    if ys == [] {
      assert zs[1..] == [];
      if keep { assert (xs + [y])[1..] == []; }
    } else {
      assert zs[1..] == ys[1..] + [y];
      if xs != [] && xs[0] == ys[0] && SubsequenceOf(xs[1..], ys[1..]) {
        SubsequenceSnoc(xs[1..], ys[1..], y, keep);
        if keep { assert (xs + [y])[1..] == xs[1..] + [y]; }
      } else {
        SubsequenceSnoc(xs, ys[1..], y, keep);
      }
    }
  }

  // ---------------------------------------------------------------------------
  // The filter

  /** The search matches when the lower-cased term occurs in the lower-cased
      title, description or instructor. */
  predicate MatchesSearch(c: Course, term: string)
  {
    || Includes(Lower(c.title), Lower(term))
    || Includes(Lower(c.description), Lower(term))
    || Includes(Lower(c.instructor), Lower(term))
  }

  /** The predicate of `filteredCourses`: search, category and level all match,
      with "all" matching every category and every level. */
  predicate Matches(c: Course, f: Filters)
  {
    && MatchesSearch(c, f.searchTerm)
    && (f.selectedCategory == All || c.category == f.selectedCategory)
    && (f.selectedLevel == All || c.level == f.selectedLevel)
  }

  /** `filteredCourses`: the courses that match, in their original order. */
  function FilterCourses(courses: seq<Course>, f: Filters): (r: seq<Course>)
    ensures SubsequenceOf(r, courses)
    ensures forall c :: c in r <==> c in courses && Matches(c, f)
    ensures |r| <= |courses|
  {
    if courses == [] then []
    else
      var rest := FilterCourses(courses[..|courses| - 1], f);
      var c := courses[|courses| - 1];
      SubsequenceSnoc(rest, courses[..|courses| - 1], c, Matches(c, f));
      assert courses[..|courses| - 1] + [c] == courses;
      if Matches(c, f) then rest + [c] else rest
  }

  /** Every course returned sits in the selected category and at the selected
      level, unless "all" is selected, and matches the search term. */
  lemma FilteredCoursesMatch(courses: seq<Course>, f: Filters, c: Course)
    requires c in FilterCourses(courses, f)
    ensures f.selectedCategory != All ==> c.category == f.selectedCategory
    ensures f.selectedLevel != All ==> c.level == f.selectedLevel
    ensures exists i :: OccursAt(Lower(c.title), Lower(f.searchTerm), i)
                     || OccursAt(Lower(c.description), Lower(f.searchTerm), i)
                     || OccursAt(Lower(c.instructor), Lower(f.searchTerm), i)
  {
    IncludesSpec(Lower(c.title), Lower(f.searchTerm));
    IncludesSpec(Lower(c.description), Lower(f.searchTerm));
    IncludesSpec(Lower(c.instructor), Lower(f.searchTerm));
  }

  /** The filters the component starts with, and what Clear Filters sets. */
  function ClearedFilters(): Filters
  {
    Filters("", All, All)
  }

  /** With the filters cleared every course is listed, in order: the empty
      term occurs in every text and "all" matches every selector. */
  lemma {:induction false} ClearedFiltersShowAll(courses: seq<Course>)
    ensures FilterCourses(courses, ClearedFilters()) == courses
  {
    if courses != [] {
      var init := courses[..|courses| - 1];
      ClearedFiltersShowAll(init);
      assert Lower("") == "";
      IncludesEmpty(Lower(courses[|courses| - 1].title));
      assert courses == init + [courses[|courses| - 1]];
    }
  }

  // ---------------------------------------------------------------------------
  // The category selector

  /** Position of the first occurrence, as `indexOf`. */
  function IndexOf<T(==)>(xs: seq<T>, x: T): (i: nat)
    requires x in xs
    ensures i < |xs| && xs[i] == x && x !in xs[..i]
  {
    if xs[0] == x then 0 else 1 + IndexOf(xs[1..], x)
  }

  lemma IndexOfSnoc<T>(xs: seq<T>, y: T, x: T)
    requires x in xs
    ensures IndexOf(xs + [y], x) == IndexOf(xs, x)
  {
    var i := IndexOf(xs, x);
    var j := IndexOf(xs + [y], x);
    assert (xs + [y])[..i] == xs[..i];
    assert (xs + [y])[i] == x;
  }

  lemma IndexOfLast<T>(xs: seq<T>, y: T)
    requires y !in xs
    ensures IndexOf(xs + [y], y) == |xs|
  {
    assert (xs + [y])[..|xs|] == xs;
  }

  /** The elements of a JavaScript `Set` built from `xs`: each distinct value
      once, where it first occurs. */
  function Distinct<T(==,!new)>(xs: seq<T>): (r: seq<T>)
    ensures NoDuplicates(r)
    ensures forall x :: x in r <==> x in xs
    ensures SubsequenceOf(r, xs)
  {
    if xs == [] then []
    else
      var init := xs[..|xs| - 1];
      var x := xs[|xs| - 1];
      var d := Distinct(init);
      assert xs == init + [x];
      SubsequenceSnoc(d, init, x, x !in init);
      if x in init then d else d + [x]
  }

  /** Distinct lists the values in the order of their first occurrence. */
  lemma {:induction false} DistinctFirstOccurrenceOrder<T(!new)>(xs: seq<T>)
    ensures forall i, j :: 0 <= i < j < |Distinct(xs)| ==>
      IndexOf(xs, Distinct(xs)[i]) < IndexOf(xs, Distinct(xs)[j])
  {
    if xs != [] {
      var init := xs[..|xs| - 1];
      var x := xs[|xs| - 1];
      DistinctFirstOccurrenceOrder(init);
      assert xs == init + [x];
      forall y | y in init ensures IndexOf(xs, y) == IndexOf(init, y) { IndexOfSnoc(init, x, y); }
      if x !in init {
        IndexOfLast(init, x);
      }
    }
  }

  /** Distinct keeps a new element at the end and drops a repeated one. */
  lemma DistinctSnoc<T(!new)>(xs: seq<T>, x: T)
    ensures Distinct(xs + [x]) == if x in xs then Distinct(xs) else Distinct(xs) + [x]
  {
    assert (xs + [x])[..|xs|] == xs;
  }

  /** Each course's category, in course order. */
  function CategoryList(courses: seq<Course>): (cats: seq<string>)
    ensures |cats| == |courses| && forall i :: 0 <= i < |courses| ==> cats[i] == courses[i].category
  {
    seq(|courses|, i requires 0 <= i < |courses| => courses[i].category)
  }

  /** `categories`: "all", then each course's category once, in the order the
      courses first use it. */
  function Categories(courses: seq<Course>): (r: seq<string>)
    ensures |r| >= 1 && r[0] == All
    ensures forall x :: x in r[1..] <==> exists c :: c in courses && c.category == x
    ensures NoDuplicates(r[1..])
  {
    var cats := CategoryList(courses);
    var d := Distinct(cats);
    assert forall x :: x in cats <==> exists c :: c in courses && c.category == x by {
      forall x ensures x in cats <==> exists c :: c in courses && c.category == x {
        if x in cats {
          var i :| 0 <= i < |cats| && cats[i] == x;
          assert courses[i] in courses;
        }
        if exists c :: c in courses && c.category == x {
          var c :| c in courses && c.category == x;
          var i :| 0 <= i < |courses| && courses[i] == c;
          assert cats[i] == x;
        }
      }
    }
    assert ([All] + d)[1..] == d;
    [All] + d
  }

  /** The category list repeats no entry exactly when no course's category is
      itself "all". */
  lemma CategoriesDistinctIff(courses: seq<Course>)
    ensures NoDuplicates(Categories(courses)) <==> forall c :: c in courses ==> c.category != All
  {
    var r := Categories(courses);
    if forall c :: c in courses ==> c.category != All {
      forall i, j | 0 <= i < j < |r| ensures r[i] != r[j] {
        if i == 0 {
          assert r[j] in r[1..];
        } else {
          assert r[i] == r[1..][i - 1] && r[j] == r[1..][j - 1];
        }
      }
    } else {
      var c :| c in courses && c.category == All;
      assert All in r[1..];
      var j :| 0 <= j < |r[1..]| && r[1..][j] == All;
      assert r[0] == r[j + 1];
    }
  }

  // ---------------------------------------------------------------------------
  // Level badges

  const BeginnerClass: string := "bg-green-500/10 text-green-500 border-green-500/20"
  const IntermediateClass: string := "bg-yellow-500/10 text-yellow-500 border-yellow-500/20"
  const AdvancedClass: string := "bg-red-500/10 text-red-500 border-red-500/20"
  const DefaultClass: string := "bg-muted text-muted-foreground"

  /** `getLevelColor`: one class per known level, the muted default otherwise. */
  function LevelColor(level: string): (r: string)
    ensures r == DefaultClass <==> level !in Levels[1..]
    ensures r in [BeginnerClass, IntermediateClass, AdvancedClass, DefaultClass]
  {
    match level
    case "Beginner" => BeginnerClass
    case "Intermediate" => IntermediateClass
    case "Advanced" => AdvancedClass
    case _ => DefaultClass
  }

  /** Different known levels get different classes. */
  lemma LevelColorsDistinct(a: string, b: string)
    requires a in Levels[1..] && b in Levels[1..] && a != b
    ensures LevelColor(a) != LevelColor(b)
  {
  }

  // ---------------------------------------------------------------------------
  // Totals under the listing

  /** `courses.reduce((acc, course) => acc + field(course), 0)`. */
  function Total(courses: seq<Course>, field: Course -> nat): nat
  {
    if courses == [] then 0 else Total(courses[..|courses| - 1], field) + field(courses[|courses| - 1])
  }

  /** The total over a concatenation is the sum of the totals. */
  lemma {:induction false} TotalAppend(a: seq<Course>, b: seq<Course>, field: Course -> nat)
    ensures Total(a + b, field) == Total(a, field) + Total(b, field)
    decreases |b|
  {
    if b == [] {
      assert a + b == a;
    } else {
      var b' := b[..|b| - 1];
      TotalAppend(a, b', field);
      assert (a + b)[..|a + b| - 1] == a + b';
      assert (a + b)[|a + b| - 1] == b[|b| - 1];
    }
  }

  /** The total over a subsequence never exceeds the total over the original:
      the listing's totals, taken over every course, bound those of any
      selection of courses. */
  lemma {:induction false} TotalOfSubsequence(xs: seq<Course>, ys: seq<Course>, field: Course -> nat)
    requires SubsequenceOf(xs, ys)
    ensures Total(xs, field) <= Total(ys, field)
    decreases |ys|
  {
    if ys != [] {
      if xs != [] && xs[0] == ys[0] && SubsequenceOf(xs[1..], ys[1..]) {
        TotalOfSubsequence(xs[1..], ys[1..], field);
        TotalAppend([xs[0]], xs[1..], field);
        TotalAppend([ys[0]], ys[1..], field);
        assert [xs[0]] + xs[1..] == xs && [ys[0]] + ys[1..] == ys;
      } else {
        TotalOfSubsequence(xs, ys[1..], field);
        TotalAppend([ys[0]], ys[1..], field);
        assert [ys[0]] + ys[1..] == ys;
      }
    }
  }

  function Students(c: Course): nat { c.students }
  function LessonCount(c: Course): nat { c.lessons }

  // ---------------------------------------------------------------------------
  // The course list

  const WebDevDescription: string := "Master the basics of web development with HTML, CSS, and JavaScript. Build responsive websites from scratch and learn modern development practices."
  const ReactDescription: string := "Advanced React development covering hooks, context, state management, and modern patterns. Build production-ready applications."
  const CyberDescription: string := "Learn essential cybersecurity concepts, threat assessment, and protection strategies. Understand network security and ethical hacking basics."
  const DatabaseDescription: string := "Master database concepts, SQL, NoSQL, and database optimization. Learn to design efficient database schemas and manage data effectively."
  const ArduinoDescription: string := "Hands-on robotics with Arduino. Build robots, work with sensors, motors, and learn IoT integration. Perfect for beginners to robotics."
  const FullStackDescription: string := "Complete full-stack development with modern frameworks, cloud deployment, and microservices architecture. Build scalable applications."

  /** The `courses` array. */
  function Courses(): seq<Course>
  {
    [ Course("web-dev-fundamentals", "Web Development Fundamentals", "Teta Nancy", WebDevDescription,
        "8 weeks", 1247, 48, "Beginner", WebDevelopment, 99, 45),
      Course("react-masterclass", "React Masterclass", "Teta Nancy", ReactDescription,
        "10 weeks", 892, 49, "Intermediate", WebDevelopment, 149, 60),
      Course("cybersecurity-basics", "Cybersecurity Fundamentals", "Aime Loic", CyberDescription,
        "12 weeks", 654, 47, "Beginner", Cybersecurity, 179, 52),
      Course("database-design", "Database Design & Management", "Nani Chris", DatabaseDescription,
        "6 weeks", 478, 46, "Intermediate", Database, 129, 35),
      Course("arduino-robotics", "Arduino Robotics Workshop", "Aime Loic", ArduinoDescription,
        "8 weeks", 323, 49, "Beginner", Robotics, 199, 40),
      Course("full-stack-advanced", "Advanced Full Stack Development", "Teta Nancy", FullStackDescription,
        "14 weeks", 267, 48, "Advanced", WebDevelopment, 249, 78) ]
  }

  const WebDevelopment: string := "Web Development"
  const Cybersecurity: string := "Cybersecurity"
  const Database: string := "Database"
  const Robotics: string := "Robotics"

  /** The courses' categories, in course order. */
  lemma CatalogCategoryList()
    ensures CategoryList(Courses()) ==
      [WebDevelopment, WebDevelopment, Cybersecurity, Database, Robotics, WebDevelopment]
  {
  }

  /** The first three categories deduplicate to two. */
  lemma CatalogDistinctPrefix()
    ensures Distinct([WebDevelopment, WebDevelopment, Cybersecurity]) == [WebDevelopment, Cybersecurity]
  {
    var c1 := [WebDevelopment];
    var c2 := c1 + [WebDevelopment];
    assert Distinct(c1) == [WebDevelopment] by {
      DistinctSnoc([], WebDevelopment);
      assert [] + [WebDevelopment] == c1;
    }
    assert Distinct(c2) == [WebDevelopment] by { DistinctSnoc(c1, WebDevelopment); }
    assert Cybersecurity !in c2;
    DistinctSnoc(c2, Cybersecurity);
    assert c2 + [Cybersecurity] == [WebDevelopment, WebDevelopment, Cybersecurity];
  }

  /** Deduplicating the course categories keeps the four first uses. */
  lemma CatalogDistinctCategories()
    ensures Distinct([WebDevelopment, WebDevelopment, Cybersecurity, Database, Robotics, WebDevelopment])
         == [WebDevelopment, Cybersecurity, Database, Robotics]
  {
    var c3 := [WebDevelopment, WebDevelopment, Cybersecurity];
    var c4 := c3 + [Database];
    var c5 := c4 + [Robotics];
    CatalogDistinctPrefix();
    assert Distinct(c4) == [WebDevelopment, Cybersecurity, Database] by {
      assert Database !in c3;
      DistinctSnoc(c3, Database);
    }
    assert Distinct(c5) == [WebDevelopment, Cybersecurity, Database, Robotics] by {
      assert Robotics !in c4;
      DistinctSnoc(c4, Robotics);
    }
    DistinctSnoc(c5, WebDevelopment);
    assert c5 + [WebDevelopment] == [WebDevelopment, WebDevelopment, Cybersecurity, Database, Robotics, WebDevelopment];
  }

  /** The listing's category selector offers "all" and four categories, once each. */
  lemma CatalogCategories()
    ensures Categories(Courses()) == [All, WebDevelopment, Cybersecurity, Database, Robotics]
  {
    CatalogCategoryList();
    CatalogDistinctCategories();
  }

  /** The listing's totals: 3861 students and 310 lessons. */
  lemma CatalogTotals()
    ensures Total(Courses(), Students) == 3861
    ensures Total(Courses(), LessonCount) == 310
  {
    var cs := Courses();
    assert cs[..1][..0] == [] && cs[..2][..1] == cs[..1] && cs[..3][..2] == cs[..2];
    assert cs[..4][..3] == cs[..3] && cs[..5][..4] == cs[..4] && cs[..6][..5] == cs[..5] && cs[..6] == cs;
    assert Total(cs[..1], Students) == 1247 && Total(cs[..1], LessonCount) == 45;
    assert Total(cs[..2], Students) == 2139 && Total(cs[..2], LessonCount) == 105;
    assert Total(cs[..3], Students) == 2793 && Total(cs[..3], LessonCount) == 157;
    assert Total(cs[..4], Students) == 3271 && Total(cs[..4], LessonCount) == 192;
    assert Total(cs[..5], Students) == 3594 && Total(cs[..5], LessonCount) == 232;
  }
}
