/**
 * The resume record's computed parts: years of experience from the joining
 * year, the experience phrase and the headline built from it, and the facts
 * about the project list that the cards rely on.
 */
module PortfolioData {
  import opened JsBuiltins

  const JoiningYear: int := 2020
  const TitlePrefix := "Full-Stack JavaScript Engineer | MERN Stack | "
  const Name := "Lav Pranjale"

  /** `currentYear - joiningYear`; the current year is a parameter, not the clock. */
  function ExperienceYears(currentYear: int): (n: int)
    ensures currentYear == JoiningYear + n
  {
    currentYear - JoiningYear
  }

  predicate EndsWith(s: string, suffix: string) {
    |suffix| <= |s| && s[|s| - |suffix|..] == suffix
  }

  /** `experienceYears > 1 ? `${n}+ Years` : `${n} Year``: the number's text
      followed by the plural with a plus, or by the singular for one year or
      fewer (zero and negative counts included). */
  function ExperienceString(n: int): (r: string)
    ensures |r| == |IntToString(n)| + (if n > 1 then |"+ Years"| else |" Year"|)
    ensures |IntToString(n)| <= |r| && r[..|IntToString(n)|] == IntToString(n)
    ensures n > 1 <==> EndsWith(r, "+ Years")
    ensures n <= 1 <==> EndsWith(r, " Year")
  {
    var digits := IntToString(n);
    if n > 1 then
      var r := digits + "+ Years";
      assert r[..|digits|] == digits;
      assert !EndsWith(r, " Year") by {
        assert r[|r| - 1] == 's';
      }
      r
    else
      var r := digits + " Year";
      assert r[..|digits|] == digits;
      assert !EndsWith(r, "+ Years") by {
        if |r| >= 7 {
          assert r[|r| - 7..][0] == r[|r| - 7];
          if |digits| >= 2 {
            assert r[|r| - 7] == digits[|digits| - 2];
            assert IntToString(n)[|digits| - 2] == '-' || IsAsciiDigit(digits[|digits| - 2]) by {
              if n < 0 {
                assert digits == "-" + NatToDecimal(-n);
                if |digits| - 2 > 0 { assert digits[|digits| - 2] == NatToDecimal(-n)[|digits| - 3]; }
              }
            }
          }
        }
      }
      r
  }

  /** Distinct year counts give distinct phrases: the phrase determines N. */
  lemma ExperienceStringDeterminesYears(a: int, b: int)
    requires ExperienceString(a) == ExperienceString(b)
    ensures a == b
  {
    var sa, sb := IntToString(a), IntToString(b);
    IntRoundTrip(a);
    IntRoundTrip(b);
    assert (a > 1) == (b > 1);
    var suffix := if a > 1 then "+ Years" else " Year";
    assert ExperienceString(a) == sa + suffix;
    assert ExperienceString(b) == sb + suffix;
    assert sa == (sa + suffix)[..|sa|];
    assert sb == (sb + suffix)[..|sb|];
  }

  /** `title`: the fixed prefix, the experience phrase, then " Experience". */
  function Title(currentYear: int): (r: string)
    ensures |r| == |TitlePrefix| + |ExperienceString(ExperienceYears(currentYear))| + |" Experience"|
    ensures r[..|TitlePrefix|] == TitlePrefix
    ensures EndsWith(r, " Experience")
    ensures r[|TitlePrefix|..|r| - |" Experience"|] == ExperienceString(ExperienceYears(currentYear))
  {
    var phrase := ExperienceString(ExperienceYears(currentYear));
    var r := TitlePrefix + phrase + " Experience";
    assert r[..|TitlePrefix|] == TitlePrefix;
    assert r[|TitlePrefix|..|r| - |" Experience"|] == phrase;
    r
  }

  /** The phrase for six years and for one year. */
  lemma ExperienceStringExamples()
    ensures ExperienceString(6) == "6+ Years"
    ensures ExperienceString(1) == "1 Year"
    ensures ExperienceString(0) == "0 Year"
  {
    assert NatToDecimal(6) == "6";
    assert NatToDecimal(1) == "1";
    assert NatToDecimal(0) == "0";
  }

  /** The headline in 2026. */
  lemma TitleIn2026()
    ensures Title(2026) == TitlePrefix + "6+ Years Experience"
  {
    var phrase := ExperienceString(ExperienceYears(2026));
    assert phrase == "6+ Years" by {
      assert ExperienceYears(2026) == 6;
      ExperienceStringExamples();
    }
    assert Title(2026) == TitlePrefix + phrase + " Experience";
    assert phrase + " Experience" == "6+ Years Experience";
  }

  /** A project card's source record; the long description and details texts
      are display-only and not part of this model. */
  datatype Project = Project(name: string, role: string, techStack: seq<string>)

  const Projects: seq<Project> := [
    Project("Harbura Health Application", "Frontend Developer (Freelancer)",
      ["React", "TypeScript", "AWS", "GPT APIs", "Python", "REST API"]),
    Project("CGMPlus & Clova Health", "React Native Developer at Webcubator Technologies",
      ["React Native", "Firebase", "AWS (S3)", "Terra", "Vital", "SQL", "Mobile App Development",
       "Data Visualization", "Health Tech"]),
    Project("Rocco Finance", "React Native Developer at Webcubator Technologies",
      ["React Native", "Node.js", "AWS (S3)", "SQL", "Firebase", "Plaid", "Payliance", "Zendesk",
       "Fintech", "Financial Wellness"]),
    Project("EnLaCancha", "Full Stack JavaScript Developer at Webcubator Technologies",
      ["React.js", "Node.js", "Express.js", "MongoDB", "Stripe", "AWS (S3)", "EdTech",
       "Scalable Architecture"]),
    Project("Planitnerd", "Full Stack Developer at Webcubator Technologies",
      ["Ionic Framework (5)", "Angular 9", "Node.js", "Express.js", "MongoDB",
       "AWS (ECS, S3, CloudFront, Elastic IP)", "Cross-Platform Development", "Travel Tech"]),
    Project("Palatable Restaurant", "React Native Developer at Webcubator Technologies",
      ["React Native", "Firebase", "AWS (EC2, S3, CloudFront)", "Real-time Sync",
       "Mobile App Development", "Restaurant Management"])
  ]

  /** Every project lists more than three technologies. */
  lemma EveryProjectHasMoreThanThreeTags()
    ensures forall i | 0 <= i < |Projects| :: |Projects[i].techStack| > 3
  {
  }

  /** `skills`: category keys with their skills, in the record's entry order. */
  const Skills: seq<(string, seq<string>)> := [
    ("frontend", ["React Native", "React.js", "HTML5", "CSS3", "TypeScript", "Redux", "Context API",
                  "Responsive Design", "Webpack", "Babel"]),
    ("backend", ["Node.js", "Express.js", "RESTful APIs", "Authentication (JWT)", "Microservices (Basic)"]),
    ("databases", ["MongoDB", "MySQL", "PostgreSQL (Basic)", "Firebase Firestore"]),
    ("cloudDevOps", ["AWS (EC2, S3, CloudFront)", "Firebase", "Git", "GitHub", "CI/CD (Basic Understanding)"]),
    ("projectManagement", ["Agile Methodologies", "Scrum", "Sprint Planning", "Task Delegation",
                           "Requirement Gathering", "Client Communication", "Cross-functional Team Collaboration"]),
    ("otherSkills", ["Performance Optimization", "Clean Architecture", "API Integration", "Mobile-First Design",
                     "Problem Solving", "Debugging", "Code Review"])
  ]
}
