/** The e-sports profile check: the model's reply is read as a verdict, a valid profile is stored
    in the platform's column and earns a per-platform award, and every failure becomes a negative
    result instead of an error.

    The model's reply is a parameter: `Ok(Some(c))` for content `c`, `Ok(None)` for a reply
    without content, `Err(e)` for a failed request. */
module EsportsService {
  import opened Wrappers
  import opened Text
  import opened Store
  import opened PointsService

  const EsportsPrefix: string := "ESPORTS_VALIDATION_"
  const ValidationError: string := "Error validating profile"

  datatype ValidationResult = ValidationResult(isValid: bool, message: string, profileUrl: Option<string>)

  /** What the catch block returns. */
  const Fallback: ValidationResult := ValidationResult(false, ValidationError, None)

  /** The verdict read from the reply. */
  predicate IsValidReply(content: string) {
    var c := Lower(content);
    Contains(c, "valid") || Contains(c, "válido") || (!Contains(c, "invalid") && !Contains(c, "inválido"))
  }

  /** The verdict is always yes: a reply containing "invalid" contains "valid", and one containing
      "inválido" contains "válido", so the last disjunct is reached only when neither is present. */
  lemma IsValidReplyAlways(content: string)
    ensures IsValidReply(content)
  {
    var c := Lower(content);
    if Contains(c, "invalid") {
      assert "invalid" == "in" + "valid";
      ContainsInfix(c, "in", "valid");
    } else if Contains(c, "inválido") {
      assert "inválido" == "in" + "válido";
      ContainsInfix(c, "in", "válido");
    }
  }

  /** The column a platform's profile is stored in, chosen on the lower-cased platform name. */
  function PlatformField(platform: string): (f: string)
    ensures Lower(platform) == "leagueoflegends" ==> f == "lol"
    ensures Lower(platform) == "rainbowsix" ==> f == "rainbowSix"
    ensures Lower(platform) != "leagueoflegends" && Lower(platform) != "rainbowsix" ==> f == Lower(platform)
  {
    match Lower(platform)
    case "leagueoflegends" => "lol"
    case "rainbowsix" => "rainbowSix"
    case "steam" => "steam"
    case "valorant" => "valorant"
    case "gamersclub" => "gamersclub"
    case "cs2" => "cs2"
    case other => other
  }

  /** Names that differ only in letter case select the same column. */
  lemma PlatformFieldIgnoresCase(a: string, b: string)
    requires EqualsIgnoreCase(a, b)
    ensures PlatformField(a) == PlatformField(b)
  {
  }

  function EsportsTag(platform: string): string {
    EsportsPrefix + Upper(platform)
  }

  /** `validateProfile`: no content is a failure; a yes verdict stores the URL in the platform's
      column and awards 10 under `ESPORTS_VALIDATION_<PLATFORM>`; any failure gives `Fallback`. */
  function ValidateProfileStep(s: State, platform: string, profileUrl: string, userId: UserId,
                               reply: Result<Option<string>>): Step<ValidationResult> {
    if reply.Err? || reply.value.None? || reply.value.value == "" then Step(s, Ok(Fallback))
    else
      var content := reply.value.value;
      var isValid := IsValidReply(content);
      if !isValid then Step(s, Ok(ValidationResult(false, content, None)))
      else
        var updated := UpdateFieldsStep(s, userId, map[PlatformField(platform) := Some(profileUrl)]);
        if updated.out.Err? then Step(updated.next, Ok(Fallback))
        else
          var award := AddPointsStep(updated.next, userId, 10, EsportsTag(platform));
          if award.out.Err? then Step(award.next, Ok(Fallback))
          else Step(award.next, Ok(ValidationResult(true, content, Some(profileUrl))))
  }

  method ValidateProfile(db: Database, platform: string, profileUrl: string, userId: UserId,
                         reply: Result<Option<string>>) returns (r: Result<ValidationResult>)
    modifies db
    ensures db.Snapshot() == ValidateProfileStep(old(db.Snapshot()), platform, profileUrl, userId, reply).next
    ensures r == ValidateProfileStep(old(db.Snapshot()), platform, profileUrl, userId, reply).out
  {
    if reply.Err? || reply.value.None? || reply.value.value == "" {
      return Ok(Fallback);
    }
    var content := reply.value.value;
    var isValid := IsValidReply(content);
    if !isValid {
      return Ok(ValidationResult(false, content, None));
    }
    var updated := db.UpdateFields(userId, map[PlatformField(platform) := Some(profileUrl)]);
    if updated.Err? {
      return Ok(Fallback);
    }
    var award := PointsService.AddPoints(db, userId, 10, EsportsTag(platform));
    if award.Err? {
      return Ok(Fallback);
    }
    return Ok(ValidationResult(true, content, Some(profileUrl)));
  }

  /** Nothing is thrown, and the URL is returned exactly when the profile is declared valid. */
  lemma ValidateProfileNeverThrows(s: State, platform: string, profileUrl: string, userId: UserId,
                                   reply: Result<Option<string>>)
    ensures var st := ValidateProfileStep(s, platform, profileUrl, userId, reply);
      && st.out.Ok?
      && (st.out.value.profileUrl.Some? <==> st.out.value.isValid)
      && (st.out.value.isValid ==> st.out.value.profileUrl == Some(profileUrl))
  {
  }

  /** A failed request or a reply without content gives the fallback with nothing written. */
  lemma NoContentFallsBack(s: State, platform: string, profileUrl: string, userId: UserId,
                           reply: Result<Option<string>>)
    requires reply.Err? || reply.value.None? || reply.value.value == ""
    ensures ValidateProfileStep(s, platform, profileUrl, userId, reply) == Step(s, Ok(Fallback))
  {
  }

  /** Any reply with content, for a write the store accepts, stores the URL in exactly the platform's
      column, raises the user's counter by 10 and appends the platform's tag unless it was paid
      before; no other user and no document changes, and the reply is returned as the message. */
  lemma ContentValidates(s: State, platform: string, profileUrl: string, userId: UserId, content: string)
    requires content != "" && Accepts(s, userId, map[PlatformField(platform) := Some(profileUrl)])
    ensures var st := ValidateProfileStep(s, platform, profileUrl, userId, Ok(Some(content)));
      var tag := EsportsTag(platform);
      var paid := !HasEntry(s.history, userId, tag);
      var u := s.users[userId];
      var written := Write(u, map[PlatformField(platform) := Some(profileUrl)]);
      && st.out == Ok(ValidationResult(true, content, Some(profileUrl)))
      && st.next.users == s.users[userId := written.(points := u.points + (if paid then 10 else 0))]
      && st.next.history == (if paid then s.history + [PointEntry(userId, 10, tag, s.clock)] else s.history)
      && st.next.documents == s.documents
      && st.next.clock == (if paid then s.clock + 1 else s.clock)
      && (PlatformField(platform) in UserColumns ==>
            written == u.(fields := u.fields[PlatformField(platform) := profileUrl]))
  {
    var field := PlatformField(platform);
    var patch := map[field := Some(profileUrl)];
    var u := s.users[userId];
    if HasEntry(s.history, userId, EsportsTag(platform)) {
      ValidateUnpaid(s, platform, profileUrl, userId, content);
    } else {
      ValidatePaid(s, platform, profileUrl, userId, content);
    }
    if field in UserColumns {
      WriteNullable(u, patch);
      ApplySet(u.fields, field, profileUrl);
    }
  }

  /** `ContentValidates` for a platform already paid: the column is written and nothing else changes. */
  lemma ValidateUnpaid(s: State, platform: string, profileUrl: string, userId: UserId, content: string)
    requires content != "" && Accepts(s, userId, map[PlatformField(platform) := Some(profileUrl)])
    requires HasEntry(s.history, userId, EsportsTag(platform))
    ensures var written := Write(s.users[userId], map[PlatformField(platform) := Some(profileUrl)]);
      ValidateProfileStep(s, platform, profileUrl, userId, Ok(Some(content)))
        == Step(s.(users := s.users[userId := written]), Ok(ValidationResult(true, content, Some(profileUrl))))
  {
    IsValidReplyAlways(content);
    var patch := map[PlatformField(platform) := Some(profileUrl)];
    UpdateFieldsAccepted(s, userId, patch);
    AddPointsDuplicate(UpdateFieldsStep(s, userId, patch).next, userId, 10, EsportsTag(platform));
  }

  /** `ContentValidates` for a platform not yet paid: the column is written, ten points are added and
      one entry is logged. */
  lemma ValidatePaid(s: State, platform: string, profileUrl: string, userId: UserId, content: string)
    requires content != "" && Accepts(s, userId, map[PlatformField(platform) := Some(profileUrl)])
    requires !HasEntry(s.history, userId, EsportsTag(platform))
    ensures var u := s.users[userId];
      var written := Write(u, map[PlatformField(platform) := Some(profileUrl)]);
      ValidateProfileStep(s, platform, profileUrl, userId, Ok(Some(content)))
        == Step(State(s.users[userId := written.(points := u.points + 10)],
                      s.history + [PointEntry(userId, 10, EsportsTag(platform), s.clock)], s.documents, s.clock + 1),
                Ok(ValidationResult(true, content, Some(profileUrl))))
  {
    IsValidReplyAlways(content);
    var patch := map[PlatformField(platform) := Some(profileUrl)];
    var u := s.users[userId];
    var written := Write(u, patch);
    UpdateFieldsAccepted(s, userId, patch);
    AddPointsFreshState(UpdateFieldsStep(s, userId, patch).next, userId, 10, EsportsTag(platform));
    UpdateTwice(s.users, userId, written, written.(points := u.points + 10));
  }

  /** The default branch writes whatever column the lower-cased platform names: "password" replaces the
      stored hash with the URL and is paid under `ESPORTS_VALIDATION_PASSWORD`. */
  lemma PasswordPlatformOverwritesHash(s: State, profileUrl: string, userId: UserId, content: string)
    requires content != "" && userId < |s.users|
    ensures var st := ValidateProfileStep(s, "password", profileUrl, userId, Ok(Some(content)));
      && st.out == Ok(ValidationResult(true, content, Some(profileUrl)))
      && userId < |st.next.users| && st.next.users[userId].password == profileUrl
      && HasEntry(st.next.history, userId, "ESPORTS_VALIDATION_PASSWORD")
  {
    assert Lower("password") == "password";
    assert PlatformField("password") == "password";
    assert EsportsTag("password") == "ESPORTS_VALIDATION_PASSWORD" by {
      assert Upper("password") == "PASSWORD";
    }
    var patch := map["password" := Some(profileUrl)];
    assert Accepts(s, userId, patch);
    ContentValidates(s, "password", profileUrl, userId, content);
    WriteEffect(s.users[userId], patch);
    var tag := EsportsTag("password");
    if !HasEntry(s.history, userId, tag) {
      var h := s.history + [PointEntry(userId, 10, tag, s.clock)];
      assert h[|h| - 1].userId == userId && h[|h| - 1].action == tag;
    }
  }

  /** A write the store refuses (a column the user table lacks, a missing user, another user's email):
      the catch turns the refusal into the fallback with nothing written. */
  lemma RefusedWriteFallsBack(s: State, platform: string, profileUrl: string, userId: UserId, content: string)
    requires content != "" && !Accepts(s, userId, map[PlatformField(platform) := Some(profileUrl)])
    ensures ValidateProfileStep(s, platform, profileUrl, userId, Ok(Some(content))) == Step(s, Ok(Fallback))
  {
    IsValidReplyAlways(content);
    UpdateFieldsOutcome(s, userId, map[PlatformField(platform) := Some(profileUrl)]);
  }

  /** Validating the same platform again stores the new URL but pays nothing more. */
  lemma RevalidateEarnsNothing(s: State, platform: string, url1: string, url2: string, userId: UserId, c1: string, c2: string)
    requires c1 != "" && c2 != "" && userId < |s.users| && PlatformField(platform) in UserColumns
    ensures var s1 := ValidateProfileStep(s, platform, url1, userId, Ok(Some(c1))).next;
      var s2 := ValidateProfileStep(s1, platform, url2, userId, Ok(Some(c2))).next;
      && s2.history == s1.history
      && userId < |s2.users| && PlatformField(platform) in s2.users[userId].fields
      && s2.users[userId].fields[PlatformField(platform)] == url2
  {
    NullableAccepted(s, userId, map[PlatformField(platform) := Some(url1)]);
    ContentValidates(s, platform, url1, userId, c1);
    var s1 := ValidateProfileStep(s, platform, url1, userId, Ok(Some(c1))).next;
    var tag := EsportsTag(platform);
    assert HasEntry(s1.history, userId, tag) by {
      if !HasEntry(s.history, userId, tag) {
        assert s1.history[|s.history|] == PointEntry(userId, 10, tag, s.clock);
      }
    }
    NullableAccepted(s1, userId, map[PlatformField(platform) := Some(url2)]);
    ContentValidates(s1, platform, url2, userId, c2);
  }

  lemma ValidateProfileKeepsValid(s: State, platform: string, profileUrl: string, userId: UserId,
                                  reply: Result<Option<string>>)
    requires Valid(s)
    ensures Valid(ValidateProfileStep(s, platform, profileUrl, userId, reply).next)
  {
    var patch := map[PlatformField(platform) := Some(profileUrl)];
    UpdateFieldsKeepsWellFormed(s, userId, patch);
    AddPointsKeepsValid(UpdateFieldsStep(s, userId, patch).next, userId, 10, EsportsTag(platform));
  }
}
