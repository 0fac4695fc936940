/**
 * The team-member profile table of script.js (`getProfileData`) and the
 * extraction of a member id from a card link's `href`.
 */
module Profiles {
  import opened Wrappers

  datatype Profile = Profile(name: string, image: string, description: string)

  /** The four team members that have a profile. */
  const ProfileIds: set<string> := {"jondie", "billy", "yanmar", "nero"}

  const Table: map<string, Profile> := map[
    "jondie" := Profile(
      "Jondie Caguioa",
      "images/jondie.png",
      "Elite frontend IT developer forged in Apex-level secure environments, crafting pixel-perfect, mission-critical interfaces with extreme precision, performance, and resilience, engineered to operate flawlessly under pressure, complexity, and zero-failure conditions."),
    "billy" := Profile(
      "Billy Jay A. Lorenzo",
      "images/billy.png",
      "Elite backend IT developer forged in Apex-level secure environments, architecting mission-critical, zero-failure systems, hardened APIs, and ultra-scalable infrastructure built to survive extreme loads, precision demands, and unforgiving real-world conditions."),
    "yanmar" := Profile(
      "Yanmar J. Lachica Jr.",
      "images/yanmar.png",
      "Elite software tester and debugger, trained to detect even the most elusive bugs, ensuring mission-critical systems remain stable under extreme conditions. Expert in stress-testing, automation, and precision validation to guarantee flawless performance in real-world environments."),
    "nero" := Profile(
      "Nero Marron Elazegui",
      "images/nero.png",
      "Elite technical documenter, skilled in creating clear, precise, and comprehensive documentation for complex IT systems. Adept at translating intricate processes into user-friendly guides, ensuring teams and clients can operate software efficiently and accurately under demanding conditions.")
  ]

  /**
   * The profile of a team member: defined exactly for the four ids, with a
   * non-empty name and description. Any other id gives nothing.
   * (This is the lookup as intended; see LookupAsWritten for the lookup as
   * the object literal performs it.)
   */
  function GetProfileData(id: string): (r: Option<Profile>)
    ensures r.Some? <==> id in ProfileIds
    ensures r.Some? ==> r.value.name != "" && r.value.description != ""
  {
    if id in Table then Some(Table[id]) else None
  }

  /** Every record's image is `images/<id>.png`. */
  lemma ProfileImagePath(id: string)
    requires GetProfileData(id).Some?
    ensures GetProfileData(id).value.image == "images/" + id + ".png"
  {
    if id == "jondie" {
      assert "images/" + "jondie" + ".png" == "images/jondie.png";
    } else if id == "billy" {
      assert "images/" + "billy" + ".png" == "images/billy.png";
    } else if id == "yanmar" {
      assert "images/" + "yanmar" + ".png" == "images/yanmar.png";
    } else {
      assert "images/" + "nero" + ".png" == "images/nero.png";
    }
  }

  lemma JondieProfile()
    ensures GetProfileData("jondie").Some?
    ensures GetProfileData("jondie").value.name == "Jondie Caguioa"
    ensures GetProfileData("jondie").value.image == "images/jondie.png"
  {
  }

  /**
   * The id a card link carries: its `href` without the first character
   * (`substring(1)`, which gives "" for an empty string).
   */
  function CardTargetId(href: string): (id: string)
    ensures |href| > 0 ==> [href[0]] + id == href
    ensures |href| == 0 ==> id == ""
  {
    if |href| == 0 then "" else href[1..]
  }

  /** A card link `#<id>` opens the profile of `<id>`, and only the four ids have one. */
  lemma CardLinkRoundTrip(id: string)
    ensures CardTargetId("#" + id) == id
    ensures GetProfileData(CardTargetId("#" + id)).Some? <==> id in ProfileIds
  {
    assert ("#" + id)[1..] == id;
  }

  // ---- The lookup as written ----
  // `profiles[id]` on a plain object literal also finds the members every
  // object inherits from Object.prototype. Such a member is truthy, so the
  // profile modal renders a block for it. Its image and description render as
  // "undefined". Its name is the function's own name ("toString", or "Object"
  // for "constructor"), except for "__proto__", which yields Object.prototype
  // itself and whose name renders as "undefined" too.

  /** Names every plain JavaScript object inherits from Object.prototype. */
  const ObjectPrototypeMembers: set<string> := {
    "constructor", "__proto__", "hasOwnProperty", "isPrototypeOf",
    "propertyIsEnumerable", "toLocaleString", "toString", "valueOf",
    "__defineGetter__", "__defineSetter__", "__lookupGetter__", "__lookupSetter__"
  }

  datatype Lookup = OwnRecord(profile: Profile) | InheritedMember(name: string) | Undefined

  /** JavaScript truthiness of what the lookup returns. */
  predicate Truthy(l: Lookup) {
    !l.Undefined?
  }

  /** `profiles[id]` as the object literal evaluates it. */
  function LookupAsWritten(id: string): (r: Lookup)
    ensures r.OwnRecord? <==> id in ProfileIds
    ensures r.InheritedMember? <==> id in ObjectPrototypeMembers
    ensures Truthy(r) <==> id in ProfileIds + ObjectPrototypeMembers
  {
    if id in Table then OwnRecord(Table[id])
    else if id in ObjectPrototypeMembers then InheritedMember(id)
    else Undefined
  }

  /** The as-written lookup treats "toString" as a found profile, though it is no team member. */
  lemma PrototypeKeyPassesAsWritten()
    ensures Truthy(LookupAsWritten("toString"))
    ensures !LookupAsWritten("toString").OwnRecord?
    ensures GetProfileData("toString") == None
  {
  }

  /**
   * The corrected lookup agrees with the object literal on every own key and
   * differs from it exactly on the inherited member names.
   */
  lemma LookupCorrection(id: string)
    ensures LookupAsWritten(id).OwnRecord? ==> GetProfileData(id) == Some(LookupAsWritten(id).profile)
    ensures GetProfileData(id).Some? ==> LookupAsWritten(id) == OwnRecord(GetProfileData(id).value)
    ensures (Truthy(LookupAsWritten(id)) && GetProfileData(id).None?) <==> id in ObjectPrototypeMembers
  {
  }
}
