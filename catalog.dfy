/**
 * `SoundsService`: the guarded catalog operations the admin panel and the bot use on top of
 * the repository. The filesystem is the set of paths that currently exist (`existsSync`);
 * `fs.unlink` removes a path from it unless the unlink fails.
 */
module Catalog {
  import opened Wrappers
  import opened Repository

  /** The errors the service throws, each with the message it carries. */
  datatype ServiceError = MissingBang | FileMissing | CommandTaken | SoundNotFound
  {
    function Message(): string
    {
      match this
      case MissingBang => "El comando debe empezar con !"
      case FileMissing => "El archivo no existe"
      case CommandTaken => "Ya existe un sonido con ese comando"
      case SoundNotFound => "Sonido no encontrado"
    }
  }

  /** Each error carries its own message, so the message the admin panel shows identifies the failed check. */
  lemma ServiceErrorMessagesDistinct(e1: ServiceError, e2: ServiceError)
    ensures e1.Message() == e2.Message() <==> e1 == e2
  {
    assert "El comando debe empezar con !"[1] == 'l';
    assert "El archivo no existe"[3] == 'a';
    assert "Ya existe un sonido con ese comando"[0] == 'Y';
    assert "Sonido no encontrado"[0] == 'S';
  }

  /** `startsWith('!')`. */
  predicate StartsWithBang(s: string)
  {
    |s| > 0 && s[0] == '!'
  }

  class SoundsService {
    const repo: SoundsRepository
    /** The paths that exist on disk. */
    var files: set<string>

    predicate Valid()
      reads this, repo
    {
      repo.Valid()
    }

    constructor (repo: SoundsRepository, files: set<string>)
      requires repo.Valid()
      ensures Valid() && this.repo == repo && this.files == files
    {
      this.repo := repo;
      this.files := files;
    }

    /** Every catalog entry. */
    function GetAllSounds(): (r: seq<Sound>)
      reads repo
      ensures |r| == |repo.rows| && forall s :: s in r <==> s in repo.rows
    {
      repo.FindAll()
    }

    /** The entry with the given id, or None. */
    function GetSoundById(id: int): (r: Option<Sound>)
      reads repo
      ensures r.Some? ==> r.value in repo.rows && r.value.id == id
      ensures r.None? <==> forall s :: s in repo.rows ==> s.id != id
    {
      repo.FindById(id)
    }

    /** The entry whose command equals the argument, or None. */
    function GetSoundByCommand(command: string): (r: Option<Sound>)
      reads repo
      ensures r.Some? ==> r.value in repo.rows && r.value.command == command
      ensures r.None? <==> forall s :: s in repo.rows ==> s.command != command
    {
      repo.FindByCommand(command)
    }

    /**
     * Checks, in this order, the `!` prefix, that the file exists and that the command is new;
     * the first failing check decides the error and the catalog is left as it was.
     */
    method CreateSound(command: string, filepath: string) returns (r: Result<Sound, ServiceError>)
      requires Valid()
      modifies repo
      ensures Valid() && files == old(files)
      ensures !StartsWithBang(command) ==> r == Failure(MissingBang)
      ensures StartsWithBang(command) && filepath !in files ==> r == Failure(FileMissing)
      ensures StartsWithBang(command) && filepath in files && old(GetSoundByCommand(command)).Some? ==>
        r == Failure(CommandTaken)
      ensures r.Failure? ==> repo.State() == old(repo.State())
      ensures r.Success? <==> StartsWithBang(command) && filepath in files && old(GetSoundByCommand(command)).None?
      ensures r.Success? ==>
        && r.value == Sound(old(repo.nextId), command, filepath)
        && repo.State() == Insert(old(repo.State()), command, filepath)
    {
      if !StartsWithBang(command) {
        return Failure(MissingBang);
      }
      if filepath !in files {
        return Failure(FileMissing);
      }
      var existing := repo.FindByCommand(command);
      if existing.Some? {
        return Failure(CommandTaken);
      }
      var created := repo.Create(command, filepath);
      match created
      case Success(sound) => r := Success(sound);
      case Failure(_) => assert false;
    }

    /**
     * Fails with `SoundNotFound` on an unknown id. Otherwise removes the file when it exists
     * (an unlink error is only logged, so the file may stay) and then deletes the row.
     */
    method DeleteSound(id: int, unlinkFails: bool) returns (r: Result<bool, ServiceError>)
      requires Valid()
      modifies this, repo
      ensures Valid()
      ensures old(GetSoundById(id)).None? ==>
        r == Failure(SoundNotFound) && repo.State() == old(repo.State()) && files == old(files)
      ensures old(GetSoundById(id)).Some? ==>
        && r == Success(true)
        && repo.State() == Remove(old(repo.State()), id)
        && files == if unlinkFails then old(files) else old(files) - {old(GetSoundById(id)).value.filepath}
    {
      var sound := repo.FindById(id);
      if sound.None? {
        return Failure(SoundNotFound);
      }
      if sound.value.filepath in files && !unlinkFails {
        files := files - {sound.value.filepath};
      }
      var deleted := repo.Delete(id);
      r := Success(deleted);
    }
  }
}
