/**
 * The records and enumerations of the video pipeline
 * (scraper/pcvideoscrapper/schemas.py). Every enumeration is a string
 * enumeration: `Value()` is the string it stores and serialises as, and
 * `Format()` is how an f-string renders a member ("ComponentType.CPU").
 */
module Schemas {
  import opened Wrappers

  datatype ComponentType = CPU | RAM | GPU | Motherboard | PSU | Cooler | Storage | Cables {
    function Value(): string {
      match this
      case CPU => "CPU"
      case RAM => "RAM"
      case GPU => "GPU"
      case Motherboard => "Motherboard"
      case PSU => "PSU"
      case Cooler => "Cooler"
      case Storage => "Storage"
      case Cables => "Cables"
    }

    /** The f-string rendering of a member of a `(str, Enum)` class: class name, dot, member name. */
    function Format(): string {
      match this
      case CPU => "ComponentType.CPU"
      case RAM => "ComponentType.RAM"
      case GPU => "ComponentType.GPU"
      case Motherboard => "ComponentType.MOTHERBOARD"
      case PSU => "ComponentType.PSU"
      case Cooler => "ComponentType.COOLER"
      case Storage => "ComponentType.STORAGE"
      case Cables => "ComponentType.CABLES"
    }
  }

  datatype ActionType = Insert | Mount | Connect | Align | Lock | Remove {
    function Value(): string {
      match this
      case Insert => "insert"
      case Mount => "mount"
      case Connect => "connect"
      case Align => "align"
      case Lock => "lock"
      case Remove => "remove"
    }
  }

  datatype Platform = AM4 | AM5 | LGA1700 | LGA1200 | UnknownPlatform {
    function Value(): string {
      match this
      case AM4 => "AM4"
      case AM5 => "AM5"
      case LGA1700 => "LGA1700"
      case LGA1200 => "LGA1200"
      case UnknownPlatform => "unknown"
    }
  }

  datatype FormFactor = ATX | MATX | ITX | EATX | UnknownFormFactor {
    function Value(): string {
      match this
      case ATX => "ATX"
      case MATX => "mATX"
      case ITX => "ITX"
      case EATX => "EATX"
      case UnknownFormFactor => "unknown"
    }
  }

  datatype VideoType = FullBuild | CpuInstall | CoolerInstall | RamInstall | GpuInstall | CableManagement {
    function Value(): string {
      match this
      case FullBuild => "full_build"
      case CpuInstall => "cpu_install"
      case CoolerInstall => "cooler_install"
      case RamInstall => "ram_install"
      case GpuInstall => "gpu_install"
      case CableManagement => "cable_management"
    }
  }

  datatype SkillLevel = Beginner | Intermediate | Advanced {
    function Value(): string {
      match this
      case Beginner => "beginner"
      case Intermediate => "intermediate"
      case Advanced => "advanced"
    }
  }

  datatype SourceConfidence = ExplicitlyShown | VerballyExplained | Inferred {
    function Value(): string {
      match this
      case ExplicitlyShown => "explicitly_shown"
      case VerballyExplained => "verbally_explained"
      case Inferred => "inferred"
    }
  }

  /** Durations and times are seconds; floating point is modelled by `real`. */
  datatype VideoMetadata = VideoMetadata(
    videoId: string,
    title: string,
    channelName: string,
    url: string,
    videoType: VideoType,
    skillLevel: SkillLevel,
    platform: Option<Platform>,
    formFactor: Option<FormFactor>,
    durationSeconds: Option<real>,
    uploadDate: Option<string>,
    description: Option<string>)

  datatype Timestamp = Timestamp(start: real, end: real)

  /** One atomic assembly step; `stepOrder` is None until steps are numbered. */
  datatype AssemblyStep = AssemblyStep(
    component: ComponentType,
    action: ActionType,
    platform: Platform,
    formFactor: FormFactor,
    stepOrder: Option<int>,
    description: string,
    visualCues: seq<string>,
    commonErrors: seq<string>,
    timestamp: Timestamp,
    videoId: string,
    sourceConfidence: SourceConfidence)

  /** A natural-language query with the component and action it is expected to find. */
  datatype SemanticQuery = SemanticQuery(
    queryText: string,
    component: Option<ComponentType>,
    action: Option<ActionType>,
    searchConfidenceThreshold: real)
}
