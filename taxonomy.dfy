/** The fixed keyword taxonomy: seven job categories, each with an ordered
    list of (keyword, weight) pairs. Weights are exact reals; every weight of
    the shipped table is a multiple of 0.5, so the source's floating-point
    sums of them are exact as well. */
module Taxonomy {
  import opened AsciiText

  datatype Keyword = Keyword(text: string, weight: real)

  datatype Category = Category(name: string, keywords: seq<Keyword>)

  /** The categories in declaration order; that order is the tie-break of the
      heuristic classifier and the output order of skill extraction. */
  const CATEGORIES: seq<Category> := [
    DATA_SCIENCE, SOFTWARE_ENGINEERING, DEVOPS_CLOUD, PRODUCT_MANAGEMENT,
    UI_UX_DESIGN, DATA_ENGINEERING, CYBERSECURITY
  ]

  const DATA_SCIENCE: Category := Category("Data Science", [
    Keyword("machine learning", 3.0), Keyword("data science", 3.0), Keyword("data scientist", 2.5),
    Keyword("python", 2.0), Keyword("pandas", 2.0), Keyword("numpy", 2.0),
    Keyword("tensorflow", 2.5), Keyword("pytorch", 2.5), Keyword("statistics", 2.0),
    Keyword("sql", 1.5), Keyword("scikit-learn", 2.0), Keyword("jupyter", 2.0),
    Keyword("data analysis", 2.0), Keyword("data visualization", 2.0), Keyword("neural network", 2.5),
    Keyword("deep learning", 2.5), Keyword("nlp", 2.0), Keyword("natural language processing", 2.0)
  ])

  const SOFTWARE_ENGINEERING: Category := Category("Software Engineering", [
    Keyword("software engineer", 3.0), Keyword("software developer", 3.0), Keyword("full stack", 2.5),
    Keyword("javascript", 2.0), Keyword("typescript", 2.0), Keyword("react", 2.0),
    Keyword("node.js", 2.0), Keyword("nodejs", 2.0), Keyword("java", 2.0),
    Keyword("spring", 2.0), Keyword("c++", 1.5), Keyword("c#", 1.5),
    Keyword(".net", 2.0), Keyword("go", 2.0), Keyword("golang", 2.0),
    Keyword("rust", 2.0), Keyword("microservices", 2.0), Keyword("rest api", 1.5),
    Keyword("graphql", 2.0), Keyword("docker", 1.5), Keyword("kubernetes", 1.5),
    Keyword("git", 0.5), Keyword("version control", 0.5), Keyword("agile", 1.0),
    Keyword("scrum", 1.0)
  ])

  const DEVOPS_CLOUD: Category := Category("DevOps / Cloud", [
    Keyword("devops", 3.0), Keyword("cloud engineer", 3.0), Keyword("sre", 2.5),
    Keyword("site reliability", 2.5), Keyword("aws", 2.5), Keyword("amazon web services", 2.0),
    Keyword("azure", 2.5), Keyword("gcp", 2.5), Keyword("google cloud", 2.0),
    Keyword("terraform", 2.5), Keyword("ansible", 2.5), Keyword("kubernetes", 2.5),
    Keyword("k8s", 2.0), Keyword("ci/cd", 2.5), Keyword("jenkins", 2.0),
    Keyword("github actions", 2.0), Keyword("gitlab ci", 2.0), Keyword("docker", 2.0),
    Keyword("containerization", 2.0), Keyword("linux", 1.5), Keyword("bash", 1.5),
    Keyword("monitoring", 2.0), Keyword("prometheus", 2.0), Keyword("grafana", 2.0)
  ])

  const PRODUCT_MANAGEMENT: Category := Category("Product Management", [
    Keyword("product manager", 3.0), Keyword("product management", 3.0), Keyword("product owner", 2.5),
    Keyword("roadmap", 2.5), Keyword("stakeholder", 2.0), Keyword("product strategy", 2.5),
    Keyword("metrics", 2.0), Keyword("kpi", 2.0), Keyword("user research", 2.5),
    Keyword("user experience", 2.0), Keyword("backlog", 2.0), Keyword("agile", 1.5),
    Keyword("scrum", 1.5), Keyword("kanban", 1.5), Keyword("mvp", 2.0),
    Keyword("minimum viable product", 2.0), Keyword("a/b testing", 2.0)
  ])

  const UI_UX_DESIGN: Category := Category("UI/UX Design", [
    Keyword("ui designer", 3.0), Keyword("ux designer", 3.0), Keyword("user experience", 3.0),
    Keyword("user interface", 3.0), Keyword("figma", 2.5), Keyword("sketch", 2.5),
    Keyword("adobe xd", 2.5), Keyword("prototype", 2.5), Keyword("wireframe", 2.5),
    Keyword("usability", 2.0), Keyword("design system", 2.5), Keyword("adobe", 1.5),
    Keyword("photoshop", 1.5), Keyword("illustrator", 1.5), Keyword("interaction design", 2.5),
    Keyword("user research", 2.0), Keyword("persona", 2.0)
  ])

  const DATA_ENGINEERING: Category := Category("Data Engineering", [
    Keyword("data engineer", 3.0), Keyword("data engineering", 3.0), Keyword("etl", 2.5),
    Keyword("spark", 2.5), Keyword("apache spark", 2.5), Keyword("airflow", 2.5),
    Keyword("kafka", 2.5), Keyword("hadoop", 2.5), Keyword("data pipeline", 2.5),
    Keyword("data warehouse", 2.5), Keyword("snowflake", 2.5), Keyword("redshift", 2.5),
    Keyword("databricks", 2.5), Keyword("big data", 2.0), Keyword("data lake", 2.0),
    Keyword("pyspark", 2.0)
  ])

  const CYBERSECURITY: Category := Category("Cybersecurity", [
    Keyword("cybersecurity", 3.0), Keyword("security engineer", 3.0), Keyword("information security", 3.0),
    Keyword("siem", 2.5), Keyword("soc", 2.5), Keyword("security operations", 2.5),
    Keyword("incident response", 2.5), Keyword("vulnerability", 2.0), Keyword("penetration testing", 2.5),
    Keyword("nist", 2.0), Keyword("owasp", 2.0), Keyword("splunk", 2.0),
    Keyword("iso 27001", 2.0), Keyword("threat detection", 2.5), Keyword("security audit", 2.0)
  ])

  /** The category names, in declaration order. */
  function Names(cats: seq<Category>): (names: seq<string>)
    ensures |names| == |cats|
    ensures forall i :: 0 <= i < |cats| ==> names[i] == cats[i].name
  {
    seq(|cats|, i requires 0 <= i < |cats| => cats[i].name)
  }

  /** What the rest of the model relies on about a taxonomy: distinct
      category names, and positive weights. */
  ghost predicate WellFormed(cats: seq<Category>) {
    && (forall i, j :: 0 <= i < j < |cats| ==> cats[i].name != cats[j].name)
    && (forall c :: c in cats ==> PositiveWeights(c))
  }

  ghost predicate PositiveWeights(c: Category) {
    forall i :: 0 <= i < |c.keywords| ==> c.keywords[i].weight > 0.0
  }

  /** `max(weight for _, weight in keywords)`. */
  function MaxWeight(kws: seq<Keyword>): (m: real)
    requires kws != []
    ensures exists i :: 0 <= i < |kws| && kws[i].weight == m
    ensures forall i :: 0 <= i < |kws| ==> kws[i].weight <= m
  {
    if |kws| == 1 then kws[0].weight
    else
      var rest := MaxWeight(kws[1..]);
      if kws[0].weight > rest then kws[0].weight else rest
  }

  /** The sum, over the categories that have keywords, of their largest weight:
      the highest score a single category could possibly reach, summed. */
  function MaxPossibleScore(cats: seq<Category>): (s: real)
    ensures (forall c :: c in cats ==> PositiveWeights(c)) ==> s >= 0.0
  {
    if cats == [] then 0.0
    else
      var head := if cats[0].keywords == [] then 0.0 else MaxWeight(cats[0].keywords);
      assert cats[0] in cats && forall c :: c in cats[1..] ==> c in cats;
      head + MaxPossibleScore(cats[1..])
  }

  lemma ShippedNames()
    ensures Names(CATEGORIES) == ["Data Science", "Software Engineering", "DevOps / Cloud",
      "Product Management", "UI/UX Design", "Data Engineering", "Cybersecurity"]
  {
  }

  /** All weights of `c` lie in (0, 3.0]. */
  ghost predicate WeightsAtMostThree(c: Category) {
    forall i :: 0 <= i < |c.keywords| ==> 0.0 < c.keywords[i].weight <= 3.0
  }

  /** "teamwork" (the second default skill) is not a keyword of `c`. */
  ghost predicate AvoidsTeamwork(c: Category) {
    forall i :: 0 <= i < |c.keywords| ==> c.keywords[i].text != "teamwork"
  }

  lemma DataScienceFacts()
    ensures WeightsAtMostThree(DATA_SCIENCE) && AvoidsTeamwork(DATA_SCIENCE)
  {
  }

  lemma SoftwareEngineeringFacts()
    ensures WeightsAtMostThree(SOFTWARE_ENGINEERING) && AvoidsTeamwork(SOFTWARE_ENGINEERING)
  {
  }

  lemma DevopsCloudFacts()
    ensures WeightsAtMostThree(DEVOPS_CLOUD) && AvoidsTeamwork(DEVOPS_CLOUD)
  {
  }

  lemma ProductManagementFacts()
    ensures WeightsAtMostThree(PRODUCT_MANAGEMENT) && AvoidsTeamwork(PRODUCT_MANAGEMENT)
  {
  }

  lemma UiUxDesignFacts()
    ensures WeightsAtMostThree(UI_UX_DESIGN) && AvoidsTeamwork(UI_UX_DESIGN)
  {
  }

  lemma DataEngineeringFacts()
    ensures WeightsAtMostThree(DATA_ENGINEERING) && AvoidsTeamwork(DATA_ENGINEERING)
  {
  }

  lemma CybersecurityFacts()
    ensures WeightsAtMostThree(CYBERSECURITY) && AvoidsTeamwork(CYBERSECURITY)
  {
  }

  /** The shipped table: the first keyword of every category weighs 3.0. */
  lemma ShippedFacts(c: Category)
    requires c in CATEGORIES
    ensures WeightsAtMostThree(c) && AvoidsTeamwork(c)
    ensures c.keywords != [] && c.keywords[0].weight == 3.0
  {
    if c == DATA_SCIENCE {
      DataScienceFacts();
    } else if c == SOFTWARE_ENGINEERING {
      SoftwareEngineeringFacts();
    } else if c == DEVOPS_CLOUD {
      DevopsCloudFacts();
    } else if c == PRODUCT_MANAGEMENT {
      ProductManagementFacts();
    } else if c == UI_UX_DESIGN {
      UiUxDesignFacts();
    } else if c == DATA_ENGINEERING {
      DataEngineeringFacts();
    } else {
      CybersecurityFacts();
    }
  }

  lemma AllShippedFacts()
    ensures forall c :: c in CATEGORIES ==> WeightsAtMostThree(c) && AvoidsTeamwork(c)
    ensures forall c :: c in CATEGORIES ==> c.keywords != [] && c.keywords[0].weight == 3.0
  {
    forall c | c in CATEGORIES
      ensures WeightsAtMostThree(c) && AvoidsTeamwork(c)
      ensures c.keywords != [] && c.keywords[0].weight == 3.0
    {
      ShippedFacts(c);
    }
  }

  lemma ShippedWellFormed()
    ensures WellFormed(CATEGORIES)
  {
    AllShippedFacts();
    ShippedNames();
    var names := Names(CATEGORIES);
    assert forall i, j :: 0 <= i < j < |names| ==> names[i] != names[j];
  }

  /** No shipped keyword is "teamwork", the second default skill. */
  lemma NoDefaultSkillKeyword()
    ensures forall c :: c in CATEGORIES ==> AvoidsTeamwork(c)
  {
    AllShippedFacts();
  }

  /** No keyword text occurs twice among positions `lo` to `hi` of `c`. */
  ghost predicate DistinctWithin(c: Category, lo: int, hi: int) {
    forall i, j :: 0 <= lo <= i < j < hi <= |c.keywords| ==> c.keywords[i].text != c.keywords[j].text
  }

  /** No keyword text of positions `a` to `b` of `c` recurs among positions
      `x` to `y`. */
  ghost predicate DistinctBetween(c: Category, a: int, b: int, x: int, y: int) {
    forall i, j :: 0 <= a <= i < b <= |c.keywords| && 0 <= x <= j < y <= |c.keywords| ==>
      c.keywords[i].text != c.keywords[j].text
  }

  /** A category lists each keyword once. */
  ghost predicate DistinctKeywords(c: Category) {
    DistinctWithin(c, 0, |c.keywords|)
  }

  lemma DistinctJoin(c: Category, lo: int, mid: int, hi: int)
    requires lo <= mid <= hi
    requires DistinctWithin(c, lo, mid) && DistinctWithin(c, mid, hi) && DistinctBetween(c, lo, mid, mid, hi)
    ensures DistinctWithin(c, lo, hi)
  {
  }

  lemma DistinctBetweenJoin(c: Category, a: int, m: int, b: int, x: int, y: int)
    requires a <= m <= b
    requires DistinctBetween(c, a, m, x, y) && DistinctBetween(c, m, b, x, y)
    ensures DistinctBetween(c, a, b, x, y)
  {
  }

  // The shipped categories are checked in blocks of about six keywords: one
  // lemma per block and per pair of blocks, joined by the two lemmas above.

  lemma DataScienceDistinctIn0()
    ensures DistinctWithin(DATA_SCIENCE, 0, 6)
  {
  }

  lemma DataScienceDistinctIn1()
    ensures DistinctWithin(DATA_SCIENCE, 6, 12)
  {
  }

  lemma DataScienceDistinctIn2()
    ensures DistinctWithin(DATA_SCIENCE, 12, 18)
  {
  }

  lemma DataScienceDistinctBetween01()
    ensures DistinctBetween(DATA_SCIENCE, 0, 6, 6, 12)
  {
  }

  lemma DataScienceDistinctBetween02()
    ensures DistinctBetween(DATA_SCIENCE, 0, 6, 12, 18)
  {
  }

  lemma DataScienceDistinctBetween12()
    ensures DistinctBetween(DATA_SCIENCE, 6, 12, 12, 18)
  {
  }

  lemma DataScienceDistinct()
    ensures DistinctKeywords(DATA_SCIENCE)
  {
    var c := DATA_SCIENCE;
    DataScienceDistinctIn0();
    DataScienceDistinctIn1();
    DataScienceDistinctIn2();
    DataScienceDistinctBetween01();
    DataScienceDistinctBetween02();
    DataScienceDistinctBetween12();
    DistinctJoin(c, 0, 6, 12);
    DistinctBetweenJoin(c, 0, 6, 12, 12, 18);
    DistinctJoin(c, 0, 12, 18);
  }

  lemma SoftwareEngineeringDistinctIn0()
    ensures DistinctWithin(SOFTWARE_ENGINEERING, 0, 6)
  {
  }

  lemma SoftwareEngineeringDistinctIn1()
    ensures DistinctWithin(SOFTWARE_ENGINEERING, 6, 12)
  {
  }

  lemma SoftwareEngineeringDistinctIn2()
    ensures DistinctWithin(SOFTWARE_ENGINEERING, 12, 18)
  {
  }

  lemma SoftwareEngineeringDistinctIn3()
    ensures DistinctWithin(SOFTWARE_ENGINEERING, 18, 25)
  {
  }

  lemma SoftwareEngineeringDistinctBetween01()
    ensures DistinctBetween(SOFTWARE_ENGINEERING, 0, 6, 6, 12)
  {
  }

  lemma SoftwareEngineeringDistinctBetween02()
    ensures DistinctBetween(SOFTWARE_ENGINEERING, 0, 6, 12, 18)
  {
  }

  lemma SoftwareEngineeringDistinctBetween03()
    ensures DistinctBetween(SOFTWARE_ENGINEERING, 0, 6, 18, 25)
  {
  }

  lemma SoftwareEngineeringDistinctBetween12()
    ensures DistinctBetween(SOFTWARE_ENGINEERING, 6, 12, 12, 18)
  {
  }

  lemma SoftwareEngineeringDistinctBetween13()
    ensures DistinctBetween(SOFTWARE_ENGINEERING, 6, 12, 18, 25)
  {
  }

  lemma SoftwareEngineeringDistinctBetween23()
    ensures DistinctBetween(SOFTWARE_ENGINEERING, 12, 18, 18, 25)
  {
  }

  lemma SoftwareEngineeringDistinct()
    ensures DistinctKeywords(SOFTWARE_ENGINEERING)
  {
    var c := SOFTWARE_ENGINEERING;
    SoftwareEngineeringDistinctIn0();
    SoftwareEngineeringDistinctIn1();
    SoftwareEngineeringDistinctIn2();
    SoftwareEngineeringDistinctIn3();
    SoftwareEngineeringDistinctBetween01();
    SoftwareEngineeringDistinctBetween02();
    SoftwareEngineeringDistinctBetween03();
    SoftwareEngineeringDistinctBetween12();
    SoftwareEngineeringDistinctBetween13();
    SoftwareEngineeringDistinctBetween23();
    DistinctJoin(c, 0, 6, 12);
    DistinctBetweenJoin(c, 0, 6, 12, 12, 18);
    DistinctJoin(c, 0, 12, 18);
    DistinctBetweenJoin(c, 0, 6, 12, 18, 25);
    DistinctBetweenJoin(c, 0, 12, 18, 18, 25);
    DistinctJoin(c, 0, 18, 25);
  }

  lemma DevopsCloudDistinctIn0()
    ensures DistinctWithin(DEVOPS_CLOUD, 0, 6)
  {
  }

  lemma DevopsCloudDistinctIn1()
    ensures DistinctWithin(DEVOPS_CLOUD, 6, 12)
  {
  }

  lemma DevopsCloudDistinctIn2()
    ensures DistinctWithin(DEVOPS_CLOUD, 12, 18)
  {
  }

  lemma DevopsCloudDistinctIn3()
    ensures DistinctWithin(DEVOPS_CLOUD, 18, 24)
  {
  }

  lemma DevopsCloudDistinctBetween01()
    ensures DistinctBetween(DEVOPS_CLOUD, 0, 6, 6, 12)
  {
  }

  lemma DevopsCloudDistinctBetween02()
    ensures DistinctBetween(DEVOPS_CLOUD, 0, 6, 12, 18)
  {
  }

  lemma DevopsCloudDistinctBetween03()
    ensures DistinctBetween(DEVOPS_CLOUD, 0, 6, 18, 24)
  {
  }

  lemma DevopsCloudDistinctBetween12()
    ensures DistinctBetween(DEVOPS_CLOUD, 6, 12, 12, 18)
  {
  }

  lemma DevopsCloudDistinctBetween13()
    ensures DistinctBetween(DEVOPS_CLOUD, 6, 12, 18, 24)
  {
  }

  lemma DevopsCloudDistinctBetween23()
    ensures DistinctBetween(DEVOPS_CLOUD, 12, 18, 18, 24)
  {
  }

  lemma DevopsCloudDistinct()
    ensures DistinctKeywords(DEVOPS_CLOUD)
  {
    var c := DEVOPS_CLOUD;
    DevopsCloudDistinctIn0();
    DevopsCloudDistinctIn1();
    DevopsCloudDistinctIn2();
    DevopsCloudDistinctIn3();
    DevopsCloudDistinctBetween01();
    DevopsCloudDistinctBetween02();
    DevopsCloudDistinctBetween03();
    DevopsCloudDistinctBetween12();
    DevopsCloudDistinctBetween13();
    DevopsCloudDistinctBetween23();
    DistinctJoin(c, 0, 6, 12);
    DistinctBetweenJoin(c, 0, 6, 12, 12, 18);
    DistinctJoin(c, 0, 12, 18);
    DistinctBetweenJoin(c, 0, 6, 12, 18, 24);
    DistinctBetweenJoin(c, 0, 12, 18, 18, 24);
    DistinctJoin(c, 0, 18, 24);
  }

  lemma ProductManagementDistinctIn0()
    ensures DistinctWithin(PRODUCT_MANAGEMENT, 0, 6)
  {
  }

  lemma ProductManagementDistinctIn1()
    ensures DistinctWithin(PRODUCT_MANAGEMENT, 6, 12)
  {
  }

  lemma ProductManagementDistinctIn2()
    ensures DistinctWithin(PRODUCT_MANAGEMENT, 12, 17)
  {
  }

  lemma ProductManagementDistinctBetween01()
    ensures DistinctBetween(PRODUCT_MANAGEMENT, 0, 6, 6, 12)
  {
  }

  lemma ProductManagementDistinctBetween02()
    ensures DistinctBetween(PRODUCT_MANAGEMENT, 0, 6, 12, 17)
  {
  }

  lemma ProductManagementDistinctBetween12()
    ensures DistinctBetween(PRODUCT_MANAGEMENT, 6, 12, 12, 17)
  {
  }

  lemma ProductManagementDistinct()
    ensures DistinctKeywords(PRODUCT_MANAGEMENT)
  {
    var c := PRODUCT_MANAGEMENT;
    ProductManagementDistinctIn0();
    ProductManagementDistinctIn1();
    ProductManagementDistinctIn2();
    ProductManagementDistinctBetween01();
    ProductManagementDistinctBetween02();
    ProductManagementDistinctBetween12();
    DistinctJoin(c, 0, 6, 12);
    DistinctBetweenJoin(c, 0, 6, 12, 12, 17);
    DistinctJoin(c, 0, 12, 17);
  }

  lemma UiUxDesignDistinctIn0()
    ensures DistinctWithin(UI_UX_DESIGN, 0, 6)
  {
  }

  lemma UiUxDesignDistinctIn1()
    ensures DistinctWithin(UI_UX_DESIGN, 6, 12)
  {
  }

  lemma UiUxDesignDistinctIn2()
    ensures DistinctWithin(UI_UX_DESIGN, 12, 17)
  {
  }

  lemma UiUxDesignDistinctBetween01()
    ensures DistinctBetween(UI_UX_DESIGN, 0, 6, 6, 12)
  {
  }

  lemma UiUxDesignDistinctBetween02()
    ensures DistinctBetween(UI_UX_DESIGN, 0, 6, 12, 17)
  {
  }

  lemma UiUxDesignDistinctBetween12()
    ensures DistinctBetween(UI_UX_DESIGN, 6, 12, 12, 17)
  {
  }

  lemma UiUxDesignDistinct()
    ensures DistinctKeywords(UI_UX_DESIGN)
  {
    var c := UI_UX_DESIGN;
    UiUxDesignDistinctIn0();
    UiUxDesignDistinctIn1();
    UiUxDesignDistinctIn2();
    UiUxDesignDistinctBetween01();
    UiUxDesignDistinctBetween02();
    UiUxDesignDistinctBetween12();
    DistinctJoin(c, 0, 6, 12);
    DistinctBetweenJoin(c, 0, 6, 12, 12, 17);
    DistinctJoin(c, 0, 12, 17);
  }

  lemma DataEngineeringDistinctIn0()
    ensures DistinctWithin(DATA_ENGINEERING, 0, 6)
  {
  }

  lemma DataEngineeringDistinctIn1()
    ensures DistinctWithin(DATA_ENGINEERING, 6, 11)
  {
  }

  lemma DataEngineeringDistinctIn2()
    ensures DistinctWithin(DATA_ENGINEERING, 11, 16)
  {
  }

  lemma DataEngineeringDistinctBetween01()
    ensures DistinctBetween(DATA_ENGINEERING, 0, 6, 6, 11)
  {
  }

  lemma DataEngineeringDistinctBetween02()
    ensures DistinctBetween(DATA_ENGINEERING, 0, 6, 11, 16)
  {
  }

  lemma DataEngineeringDistinctBetween12()
    ensures DistinctBetween(DATA_ENGINEERING, 6, 11, 11, 16)
  {
  }

  lemma DataEngineeringDistinct()
    ensures DistinctKeywords(DATA_ENGINEERING)
  {
    var c := DATA_ENGINEERING;
    DataEngineeringDistinctIn0();
    DataEngineeringDistinctIn1();
    DataEngineeringDistinctIn2();
    DataEngineeringDistinctBetween01();
    DataEngineeringDistinctBetween02();
    DataEngineeringDistinctBetween12();
    DistinctJoin(c, 0, 6, 11);
    DistinctBetweenJoin(c, 0, 6, 11, 11, 16);
    DistinctJoin(c, 0, 11, 16);
  }

  lemma CybersecurityDistinctIn0()
    ensures DistinctWithin(CYBERSECURITY, 0, 5)
  {
  }

  lemma CybersecurityDistinctIn1()
    ensures DistinctWithin(CYBERSECURITY, 5, 10)
  {
  }

  lemma CybersecurityDistinctIn2()
    ensures DistinctWithin(CYBERSECURITY, 10, 15)
  {
  }

  lemma CybersecurityDistinctBetween01()
    ensures DistinctBetween(CYBERSECURITY, 0, 5, 5, 10)
  {
  }

  lemma CybersecurityDistinctBetween02()
    ensures DistinctBetween(CYBERSECURITY, 0, 5, 10, 15)
  {
  }

  lemma CybersecurityDistinctBetween12()
    ensures DistinctBetween(CYBERSECURITY, 5, 10, 10, 15)
  {
  }

  lemma CybersecurityDistinct()
    ensures DistinctKeywords(CYBERSECURITY)
  {
    var c := CYBERSECURITY;
    CybersecurityDistinctIn0();
    CybersecurityDistinctIn1();
    CybersecurityDistinctIn2();
    CybersecurityDistinctBetween01();
    CybersecurityDistinctBetween02();
    CybersecurityDistinctBetween12();
    DistinctJoin(c, 0, 5, 10);
    DistinctBetweenJoin(c, 0, 5, 10, 10, 15);
    DistinctJoin(c, 0, 10, 15);
  }

  /** Within each shipped category every keyword is listed once (the same
      keyword may still appear in two categories). */
  lemma ShippedDistinct(c: Category)
    requires c in CATEGORIES
    ensures DistinctKeywords(c)
  {
    if c == DATA_SCIENCE {
      DataScienceDistinct();
    } else if c == SOFTWARE_ENGINEERING {
      SoftwareEngineeringDistinct();
    } else if c == DEVOPS_CLOUD {
      DevopsCloudDistinct();
    } else if c == PRODUCT_MANAGEMENT {
      ProductManagementDistinct();
    } else if c == UI_UX_DESIGN {
      UiUxDesignDistinct();
    } else if c == DATA_ENGINEERING {
      DataEngineeringDistinct();
    } else {
      CybersecurityDistinct();
    }
  }

  lemma {:induction false} MaxPossibleOfThrees(cats: seq<Category>)
    requires forall c :: c in cats ==> c.keywords != [] && MaxWeight(c.keywords) == 3.0
    ensures MaxPossibleScore(cats) == 3.0 * |cats| as real
  {
    if cats != [] {
      MaxPossibleOfThrees(cats[1..]);
    }
  }

  /** Every category's largest weight is 3.0, so the sum is 21.0. */
  lemma ShippedMaxPossibleScore()
    ensures MaxPossibleScore(CATEGORIES) == 21.0
  {
    AllShippedFacts();
    forall c | c in CATEGORIES
      ensures c.keywords != [] && MaxWeight(c.keywords) == 3.0
    {
    }
    MaxPossibleOfThrees(CATEGORIES);
  }
}
